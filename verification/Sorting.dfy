/** Stable sorting by a total preorder, standing for Go's sort.SliceStable and slices.SortStableFunc. */
module Sorting {

  ghost predicate TotalPreorder<T(!new)>(le: (T, T) -> bool) {
    && (forall a, b :: le(a, b) || le(b, a))
    && (forall a, b, c :: le(a, b) && le(b, c) ==> le(a, c))
  }

  ghost predicate SortedBy<T>(s: seq<T>, le: (T, T) -> bool) {
    forall i, j :: 0 <= i < j < |s| ==> le(s[i], s[j])
  }

  function Insert<T>(x: T, s: seq<T>, le: (T, T) -> bool): (r: seq<T>)
    ensures multiset(r) == multiset{x} + multiset(s)
    ensures |r| == |s| + 1
  {
    if s == [] then [x]
    else if le(x, s[0]) then [x] + s
    else
      assert s == [s[0]] + s[1..];
      [s[0]] + Insert(x, s[1..], le)
  }

  /** Insertion from the right keeps equal elements in their order: the sort is stable. */
  function StableSort<T>(s: seq<T>, le: (T, T) -> bool): (r: seq<T>)
    ensures multiset(r) == multiset(s)
    ensures |r| == |s|
  {
    if s == [] then []
    else
      assert s == [s[0]] + s[1..];
      Insert(s[0], StableSort(s[1..], le), le)
  }

  lemma {:induction false} InsertSorted<T(!new)>(x: T, s: seq<T>, le: (T, T) -> bool)
    requires TotalPreorder(le) && SortedBy(s, le)
    ensures SortedBy(Insert(x, s, le), le)
  {
    if s != [] && !le(x, s[0]) {
      InsertSorted(x, s[1..], le);
      var rest := Insert(x, s[1..], le);
      forall j | 0 <= j < |rest| ensures le(s[0], rest[j]) {
        assert rest[j] in multiset(rest);
        assert rest[j] == x || rest[j] in s[1..];
      }
    }
  }

  lemma {:induction false} StableSortSorts<T(!new)>(s: seq<T>, le: (T, T) -> bool)
    requires TotalPreorder(le)
    ensures SortedBy(StableSort(s, le), le)
  {
    if s != [] {
      StableSortSorts(s[1..], le);
      InsertSorted(s[0], StableSort(s[1..], le), le);
    }
  }

  ghost predicate NoTies<T(!new)>(s: seq<T>, le: (T, T) -> bool) {
    forall x, y :: x in s && y in s && le(x, y) && le(y, x) ==> x == y
  }

  lemma SameFirst<T(!new)>(a: seq<T>, b: seq<T>, le: (T, T) -> bool)
    requires SortedBy(a, le) && SortedBy(b, le) && multiset(a) == multiset(b)
    requires NoTies(a, le) && a != [] && b != []
    ensures a[0] == b[0]
  {
    assert a[0] in multiset(b) && b[0] in multiset(a);
    var i :| 0 <= i < |b| && b[i] == a[0];
    var j :| 0 <= j < |a| && a[j] == b[0];
    if i != 0 && j != 0 {
      assert le(b[0], b[i]) && le(a[0], a[j]);
    }
  }

  /** Under an order without ties among the elements, there is one sorted arrangement. */
  lemma {:induction false} SortedUnique<T(!new)>(a: seq<T>, b: seq<T>, le: (T, T) -> bool)
    requires SortedBy(a, le) && SortedBy(b, le) && multiset(a) == multiset(b)
    requires NoTies(a, le)
    ensures a == b
  {
    assert |multiset(a)| == |a| && |multiset(b)| == |b|;
    if a != [] {
      SameFirst(a, b, le);
      RestSorted(a, le);
      RestSorted(b, le);
      assert NoTies(a[1..], le);
      hide NoTies, SortedBy;
      SortedUnique(a[1..], b[1..], le);
      assert a == [a[0]] + a[1..] && b == [b[0]] + b[1..];
    }
  }

  lemma RestSorted<T>(s: seq<T>, le: (T, T) -> bool)
    requires SortedBy(s, le) && s != []
    ensures SortedBy(s[1..], le) && multiset(s[1..]) == multiset(s) - multiset{s[0]}
    ensures forall x :: x in s[1..] ==> x in s
  {
    assert s == [s[0]] + s[1..];
  }

  function Filter<T(!new)>(s: seq<T>, p: T -> bool): (r: seq<T>)
    ensures forall x :: x in r <==> x in s && p(x)
    ensures |r| <= |s|
  {
    if s == [] then []
    else if p(s[0]) then [s[0]] + Filter(s[1..], p)
    else Filter(s[1..], p)
  }

  lemma {:induction false} FilterConcat<T(!new)>(a: seq<T>, b: seq<T>, p: T -> bool)
    ensures Filter(a + b, p) == Filter(a, p) + Filter(b, p)
  {
    if a == [] {
      assert a + b == b;
    } else {
      assert (a + b)[1..] == a[1..] + b;
      FilterConcat(a[1..], b, p);
    }
  }

  lemma {:induction false} FilterMultiset<T(!new)>(a: seq<T>, p: T -> bool, x: T)
    ensures multiset(Filter(a, p))[x] == if p(x) then multiset(a)[x] else 0
  {
    if a != [] {
      FilterMultiset(a[1..], p, x);
      assert a == [a[0]] + a[1..];
    }
  }

  lemma {:induction false} FilterSorted<T(!new)>(s: seq<T>, p: T -> bool, le: (T, T) -> bool)
    requires SortedBy(s, le)
    ensures SortedBy(Filter(s, p), le)
  {
    if s != [] {
      FilterSorted(s[1..], p, le);
      if p(s[0]) {
        var rest := Filter(s[1..], p);
        forall j | 0 <= j < |rest| ensures le(s[0], rest[j]) {
          assert rest[j] in s[1..];
        }
      }
    }
  }

  /** Sorting and filtering commute when no two kept elements tie. */
  lemma {:induction false} SortFilter<T(!new)>(s: seq<T>, p: T -> bool, le: (T, T) -> bool)
    requires TotalPreorder(le)
    requires NoTies(s, le)
    ensures Filter(StableSort(s, le), p) == StableSort(Filter(s, p), le)
  {
    var a := Filter(StableSort(s, le), p);
    var b := StableSort(Filter(s, p), le);
    StableSortSorts(s, le);
    StableSortSorts(Filter(s, p), le);
    FilterSorted(StableSort(s, le), p, le);
    forall x ensures multiset(a)[x] == multiset(b)[x] {
      FilterMultiset(StableSort(s, le), p, x);
      FilterMultiset(s, p, x);
    }
    assert multiset(a) == multiset(b);
    forall x | x in a ensures x in s {
      assert x in multiset(StableSort(s, le));
      assert x in multiset(s);
    }
    SortedUnique(a, b, le);
  }

  lemma {:induction false} FilterFilter<T(!new)>(s: seq<T>, p: T -> bool, q: T -> bool, both: T -> bool)
    requires forall x :: x in s ==> (both(x) <==> p(x) && q(x))
    ensures Filter(Filter(s, p), q) == Filter(s, both)
  {
    if s != [] { FilterFilter(s[1..], p, q, both); }
  }

  lemma {:induction false} FilterSame<T(!new)>(s: seq<T>, p: T -> bool, q: T -> bool)
    requires forall x :: x in s ==> (p(x) <==> q(x))
    ensures Filter(s, p) == Filter(s, q)
  {
    if s != [] { FilterSame(s[1..], p, q); }
  }

  lemma {:induction false} FilterAll<T(!new)>(s: seq<T>, p: T -> bool)
    requires forall x :: x in s ==> p(x)
    ensures Filter(s, p) == s
  {
    if s != [] { FilterAll(s[1..], p); }
  }

  lemma FilterOne<T(!new)>(x: T, p: T -> bool)
    ensures Filter([x], p) == if p(x) then [x] else []
  {
    assert [x][1..] == [];
  }

  lemma {:induction false} FilterNone<T(!new)>(s: seq<T>, p: T -> bool)
    requires forall x :: x in s ==> !p(x)
    ensures Filter(s, p) == []
  {
    if s != [] { FilterNone(s[1..], p); }
  }

  // ----- stability -----

  function TiesWith<T(!new)>(le: (T, T) -> bool, x: T): (p: T -> bool)
    ensures forall y :: p(y) <==> le(x, y) && le(y, x)
  {
    y => le(x, y) && le(y, x)
  }

  /** r is s sorted, with elements that tie in the order they have in s. */
  ghost predicate StablySorted<T(!new)>(s: seq<T>, r: seq<T>, le: (T, T) -> bool) {
    && SortedBy(r, le) && multiset(r) == multiset(s)
    && forall x :: Filter(r, TiesWith(le, x)) == Filter(s, TiesWith(le, x))
  }

  lemma {:induction false} InsertFirst<T(!new)>(x: T, s: seq<T>, le: (T, T) -> bool, p: T -> bool)
    requires forall a, b :: p(a) && p(b) ==> le(a, b)
    ensures Filter(Insert(x, s, le), p) == (if p(x) then [x] else []) + Filter(s, p)
  {
    FilterOne(x, p);
    if s == [] {
      assert Filter(s, p) == [];
    } else if le(x, s[0]) {
      FilterConcat([x], s, p);
    } else {
      InsertFirst(x, s[1..], le, p);
      FilterConcat([s[0]], Insert(x, s[1..], le), p);
      FilterOne(s[0], p);
    }
  }

  lemma {:induction false} SortKeepsTies<T(!new)>(s: seq<T>, le: (T, T) -> bool, p: T -> bool)
    requires forall a, b :: p(a) && p(b) ==> le(a, b)
    ensures Filter(StableSort(s, le), p) == Filter(s, p)
  {
    if s != [] {
      SortKeepsTies(s[1..], le, p);
      InsertFirst(s[0], StableSort(s[1..], le), le, p);
    }
  }

  lemma StableSortIsStable<T(!new)>(s: seq<T>, le: (T, T) -> bool)
    requires TotalPreorder(le)
    ensures StablySorted(s, StableSort(s, le), le)
  {
    StableSortSorts(s, le);
    forall x ensures Filter(StableSort(s, le), TiesWith(le, x)) == Filter(s, TiesWith(le, x)) {
      SortKeepsTies(s, le, TiesWith(le, x));
    }
  }

  /** Any stable sort gives the same list, so one stands for all. */
  lemma StableSortIsUnique<T(!new)>(s: seq<T>, r: seq<T>, le: (T, T) -> bool)
    requires TotalPreorder(le) && StablySorted(s, r, le)
    ensures r == StableSort(s, le)
  {
    StableSortIsStable(s, le);
    SameTiesSame(r, StableSort(s, le), le);
  }

  lemma {:induction false} SameTiesSame<T(!new)>(a: seq<T>, b: seq<T>, le: (T, T) -> bool)
    requires TotalPreorder(le) && SortedBy(a, le) && SortedBy(b, le) && multiset(a) == multiset(b)
    requires forall x :: Filter(a, TiesWith(le, x)) == Filter(b, TiesWith(le, x))
    ensures a == b
  {
    assert |multiset(a)| == |a| && |multiset(b)| == |b|;
    if a != [] {
      FirstsTie(a, b, le);
      var p := TiesWith(le, a[0]);
      assert p(a[0]) && p(b[0]);
      assert a[0] == Filter(a, p)[0] == Filter(b, p)[0] == b[0];
      RestSorted(a, le);
      RestSorted(b, le);
      forall x ensures Filter(a[1..], TiesWith(le, x)) == Filter(b[1..], TiesWith(le, x)) {
        assert Filter(a, TiesWith(le, x)) == Filter(b, TiesWith(le, x));
        FilterRest(a, TiesWith(le, x));
        FilterRest(b, TiesWith(le, x));
      }
      SameTiesSame(a[1..], b[1..], le);
      assert a == [a[0]] + a[1..] && b == [b[0]] + b[1..];
    }
  }

  lemma FilterRest<T(!new)>(s: seq<T>, p: T -> bool)
    requires s != []
    ensures Filter(s[1..], p) == if p(s[0]) then Filter(s, p)[1..] else Filter(s, p)
  {
  }

  lemma FirstsTie<T(!new)>(a: seq<T>, b: seq<T>, le: (T, T) -> bool)
    requires TotalPreorder(le) && SortedBy(a, le) && SortedBy(b, le) && multiset(a) == multiset(b) && a != [] && b != []
    ensures le(a[0], b[0]) && le(b[0], a[0])
  {
    assert a[0] in multiset(b) && b[0] in multiset(a);
    var i :| 0 <= i < |b| && b[i] == a[0];
    var j :| 0 <= j < |a| && a[j] == b[0];
    if i > 0 { assert le(b[0], b[i]); }
    if j > 0 { assert le(a[0], a[j]); }
  }
}
