/** std::stable_sort for a strict weak order, and filtering. */
module StableSort {

  ghost predicate StrictWeakOrder<T(!new)>(less: (T, T) -> bool) {
    && (forall a, b :: less(a, b) ==> !less(b, a))
    && (forall a, b, c :: !less(b, a) && !less(c, b) ==> !less(c, a))
  }

  function Insert<T>(x: T, s: seq<T>, less: (T, T) -> bool): (r: seq<T>)
    ensures |r| == |s| + 1
  {
    if s == [] then [x]
    else if less(s[0], x) then [s[0]] + Insert(x, s[1..], less)
    else [x] + s
  }

  /** Equal elements keep their order: an earlier element is inserted last and
      stops in front of its equals. */
  function Sort<T>(s: seq<T>, less: (T, T) -> bool): (r: seq<T>)
    ensures |r| == |s|
  {
    if s == [] then [] else Insert(s[0], Sort(s[1..], less), less)
  }

  function Filter<T(!new)>(s: seq<T>, p: T -> bool): (r: seq<T>)
    ensures |r| <= |s|
    ensures forall x :: x in r <==> x in s && p(x)
  {
    if s == [] then []
    else if p(s[0]) then [s[0]] + Filter(s[1..], p)
    else Filter(s[1..], p)
  }

  ghost predicate Sorted<T>(s: seq<T>, less: (T, T) -> bool) {
    forall i, j :: 0 <= i < j < |s| ==> !less(s[j], s[i])
  }

  predicate Equivalent<T>(a: T, b: T, less: (T, T) -> bool) {
    !less(a, b) && !less(b, a)
  }

  /** The elements that compare equal to a, in their order. */
  function ClassOf<T(!new)>(s: seq<T>, a: T, less: (T, T) -> bool): seq<T> {
    Filter(s, x => Equivalent(a, x, less))
  }

  /** What std::stable_sort guarantees of its result. */
  ghost predicate IsStableSort<T(!new)>(r: seq<T>, s: seq<T>, less: (T, T) -> bool) {
    && Sorted(r, less)
    && forall a :: ClassOf(r, a, less) == ClassOf(s, a, less)
  }

  lemma {:induction false} InsertAdds<T(!new)>(x: T, s: seq<T>, less: (T, T) -> bool)
    ensures multiset(Insert(x, s, less)) == multiset([x]) + multiset(s)
    ensures forall y :: y in Insert(x, s, less) <==> y == x || y in s
  {
    if s != [] {
      assert s == [s[0]] + s[1..];
      InsertAdds(x, s[1..], less);
    }
  }

  lemma SortedCons<T(!new)>(x: T, r: seq<T>, less: (T, T) -> bool)
    requires Sorted(r, less) && forall y :: y in r ==> !less(y, x)
    ensures Sorted([x] + r, less)
  {
  }

  lemma SortedHead<T(!new)>(s: seq<T>, less: (T, T) -> bool)
    requires s != [] && Sorted(s, less)
    ensures Sorted(s[1..], less) && forall y :: y in s[1..] ==> !less(y, s[0])
  {
  }

  /** Not being less carries over. */
  lemma NotLess<T(!new)>(a: T, b: T, c: T, less: (T, T) -> bool)
    requires StrictWeakOrder(less) && !less(c, b) && !less(b, a)
    ensures !less(c, a)
  {
  }

  lemma {:induction false} InsertSorted<T(!new)>(x: T, s: seq<T>, less: (T, T) -> bool)
    requires StrictWeakOrder(less) && Sorted(s, less)
    ensures Sorted(Insert(x, s, less), less)
    ensures multiset(Insert(x, s, less)) == multiset([x]) + multiset(s)
    ensures forall y :: y in Insert(x, s, less) <==> y == x || y in s
  {
    hide Sorted;
    InsertAdds(x, s, less);
    if s == [] {
      NothingSorted(less);
      SortedCons(x, s, less);
      assert [x] + s == [x];
    } else {
      SortedHead(s, less);
      if less(s[0], x) {
        InsertSorted(x, s[1..], less);
        SortedCons(s[0], Insert(x, s[1..], less), less);
        assert Insert(x, s, less) == [s[0]] + Insert(x, s[1..], less);
      } else {
        forall y | y in s ensures !less(y, x) {
          if y != s[0] {
            assert y in s[1..];
            NotLess(x, s[0], y, less);
          }
        }
        SortedCons(x, s, less);
      }
    }
  }

  lemma NothingSorted<T(!new)>(less: (T, T) -> bool)
    ensures Sorted([], less)
  {
  }

  lemma {:induction false} SortSorted<T(!new)>(s: seq<T>, less: (T, T) -> bool)
    requires StrictWeakOrder(less)
    ensures Sorted(Sort(s, less), less)
    ensures multiset(Sort(s, less)) == multiset(s)
    ensures forall y :: y in Sort(s, less) <==> y in s
  {
    if s != [] {
      SortSorted(s[1..], less);
      InsertSorted(s[0], Sort(s[1..], less), less);
      assert s == [s[0]] + s[1..];
    }
  }

  lemma {:induction false} FilterInsert<T(!new)>(x: T, s: seq<T>, less: (T, T) -> bool, p: T -> bool)
    requires StrictWeakOrder(less) && Sorted(s, less)
    ensures Filter(Insert(x, s, less), p) == if p(x) then Insert(x, Filter(s, p), less) else Filter(s, p)
  {
    if s != [] {
      if less(s[0], x) {
        FilterInsert(x, s[1..], less, p);
      } else if p(x) && Filter(s, p) != [] {
        var y := Filter(s, p)[0];
        assert y in s;
        var i :| 0 <= i < |s| && s[i] == y;
        assert i > 0 ==> !less(y, s[0]);
        assert !less(y, x);
      }
    }
  }

  /** Filtering commutes with the stable sort. */
  lemma {:induction false} FilterCommutes<T(!new)>(s: seq<T>, less: (T, T) -> bool, p: T -> bool)
    requires StrictWeakOrder(less)
    ensures Filter(Sort(s, less), p) == Sort(Filter(s, p), less)
  {
    if s != [] {
      FilterCommutes(s[1..], less, p);
      SortSorted(s[1..], less);
      FilterInsert(s[0], Sort(s[1..], less), less, p);
    }
  }

  lemma {:induction false} SortOfClass<T(!new)>(s: seq<T>, less: (T, T) -> bool)
    requires forall x, y :: x in s && y in s ==> !less(x, y)
    ensures Sort(s, less) == s
  {
    if s != [] {
      SortOfClass(s[1..], less);
    }
  }

  /** Sort is a stable sort. */
  lemma SortIsStable<T(!new)>(s: seq<T>, less: (T, T) -> bool)
    requires StrictWeakOrder(less)
    ensures IsStableSort(Sort(s, less), s, less)
  {
    SortSorted(s, less);
    forall a ensures ClassOf(Sort(s, less), a, less) == ClassOf(s, a, less) {
      FilterCommutes(s, less, x => Equivalent(a, x, less));
      SortOfClass(ClassOf(s, a, less), less);
    }
  }

  lemma SameEmptiness<T(!new)>(r: seq<T>, t: seq<T>, less: (T, T) -> bool)
    requires StrictWeakOrder(less) && r != []
    requires forall a :: ClassOf(r, a, less) == ClassOf(t, a, less)
    ensures t != []
  {
    assert r[0] in ClassOf(r, r[0], less);
    assert ClassOf(t, r[0], less) != [];
  }

  /** There is only one stable sort of a sequence. */
  lemma {:induction false} StableSortUnique<T(!new)>(r: seq<T>, t: seq<T>, less: (T, T) -> bool)
    requires StrictWeakOrder(less) && Sorted(r, less) && Sorted(t, less)
    requires forall a :: ClassOf(r, a, less) == ClassOf(t, a, less)
    ensures r == t
    decreases |r|
  {
    if r != [] {
      SameEmptiness(r, t, less);
    }
    if t != [] {
      SameEmptiness(t, r, less);
      var a, b := r[0], t[0];
      assert a in ClassOf(r, a, less) && b in ClassOf(t, b, less);
      assert a in t && b in r;
      var i :| 0 <= i < |t| && t[i] == a;
      var j :| 0 <= j < |r| && r[j] == b;
      assert Equivalent(a, b, less);
      assert ClassOf(r, a, less)[0] == a && ClassOf(t, a, less)[0] == b;
      assert ClassOf(r, a, less) == ClassOf(t, a, less);
      assert a == b;
      forall c ensures ClassOf(r[1..], c, less) == ClassOf(t[1..], c, less) {
        assert ClassOf(r, c, less) == ClassOf(t, c, less);
        ClassCons(r, c, less);
        ClassCons(t, c, less);
      }
      StableSortUnique(r[1..], t[1..], less);
    }
  }

  lemma ClassCons<T(!new)>(s: seq<T>, c: T, less: (T, T) -> bool)
    requires s != []
    ensures Equivalent(c, s[0], less) ==>
              ClassOf(s, c, less) != [] && ClassOf(s[1..], c, less) == ClassOf(s, c, less)[1..]
    ensures !Equivalent(c, s[0], less) ==> ClassOf(s[1..], c, less) == ClassOf(s, c, less)
  {
  }
}
