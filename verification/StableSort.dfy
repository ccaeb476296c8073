/** Stable sorting by a total preorder, and what determines its result. */
module StableSort {

  type Le<!T> = (T, T) -> bool

  ghost predicate TotalPreorder<T(!new)>(le: Le<T>) {
    && (forall a, b :: le(a, b) || le(b, a))
    && (forall a, b, c :: le(a, b) && le(b, c) ==> le(a, c))
  }

  ghost predicate Sorted<T>(le: Le<T>, s: seq<T>) {
    forall i, j | 0 <= i < j < |s| :: le(s[i], s[j])
  }

  /** Insert `x` behind everything not above it. */
  function Insert<T>(le: Le<T>, s: seq<T>, x: T): seq<T> {
    if s == [] || le(s[|s| - 1], x) then s + [x]
    else Insert(le, s[..|s| - 1], x) + [s[|s| - 1]]
  }

  /** A stable sort: later equals stay behind earlier ones. */
  function Sort<T>(le: Le<T>, s: seq<T>): seq<T> {
    if s == [] then [] else Insert(le, Sort(le, s[..|s| - 1]), s[|s| - 1])
  }

  function Filter<T>(p: T -> bool, s: seq<T>): seq<T> {
    if s == [] then [] else Filter(p, s[..|s| - 1]) + if p(s[|s| - 1]) then [s[|s| - 1]] else []
  }

  predicate Equivalent<T>(le: Le<T>, a: T, b: T) {
    le(a, b) && le(b, a)
  }

  /** The members of `s` that `le` does not tell from `x`, in order. */
  function Class<T>(le: Le<T>, s: seq<T>, x: T): seq<T> {
    Filter(y => Equivalent(le, x, y), s)
  }

  // ------------------------------------------------------------- filters

  lemma {:induction false} FilterSnoc<T>(p: T -> bool, s: seq<T>, x: T)
    ensures Filter(p, s + [x]) == Filter(p, s) + if p(x) then [x] else []
  {
    assert (s + [x])[..|s|] == s;
  }

  lemma {:induction false} FilterConcat<T>(p: T -> bool, a: seq<T>, b: seq<T>)
    ensures Filter(p, a + b) == Filter(p, a) + Filter(p, b)
    decreases |b|
  {
    if b == [] {
      assert a + b == a;
    } else {
      assert (a + b)[..|a + b| - 1] == a + b[..|b| - 1];
      FilterConcat(p, a, b[..|b| - 1]);
    }
  }

  lemma {:induction false} FilterMember<T>(p: T -> bool, s: seq<T>, x: T)
    ensures x in Filter(p, s) <==> x in s && p(x)
  {
    if s != [] {
      assert s == s[..|s| - 1] + [s[|s| - 1]];
      FilterMember(p, s[..|s| - 1], x);
    }
  }

  lemma {:induction false} FilterAll<T>(p: T -> bool, s: seq<T>)
    requires forall x | x in s :: p(x)
    ensures Filter(p, s) == s
  {
    if s != [] {
      assert s == s[..|s| - 1] + [s[|s| - 1]];
      FilterAll(p, s[..|s| - 1]);
    }
  }

  lemma {:induction false} FilterTwice<T>(p: T -> bool, q: T -> bool, s: seq<T>)
    ensures Filter(p, Filter(q, s)) == Filter(q, Filter(p, s))
  {
    if s != [] {
      var init, last := s[..|s| - 1], s[|s| - 1];
      FilterTwice(p, q, init);
      FilterSnoc(p, Filter(q, init), last);
      FilterSnoc(q, Filter(p, init), last);
      assert Filter(q, init) + [] == Filter(q, init) && Filter(p, init) + [] == Filter(p, init);
    }
  }

  lemma {:induction false} FilterSorted<T>(le: Le<T>, p: T -> bool, s: seq<T>)
    requires Sorted(le, s)
    ensures Sorted(le, Filter(p, s))
  {
    if s != [] {
      var init := s[..|s| - 1];
      FilterSorted(le, p, init);
      forall i | 0 <= i < |Filter(p, init)| ensures le(Filter(p, init)[i], s[|s| - 1]) {
        FilterMember(p, init, Filter(p, init)[i]);
      }
    }
  }

  // ---------------------------------------------------------- the result

  lemma {:induction false} InsertMembers<T>(le: Le<T>, s: seq<T>, x: T)
    ensures multiset(Insert(le, s, x)) == multiset(s) + multiset{x}
  {
    if !(s == [] || le(s[|s| - 1], x)) {
      InsertMembers(le, s[..|s| - 1], x);
      assert s == s[..|s| - 1] + [s[|s| - 1]];
    }
  }

  lemma {:induction false} InsertSorts<T(!new)>(le: Le<T>, s: seq<T>, x: T)
    requires TotalPreorder(le) && Sorted(le, s)
    ensures Sorted(le, Insert(le, s, x))
  {
    if !(s == [] || le(s[|s| - 1], x)) {
      var init, last := s[..|s| - 1], s[|s| - 1];
      InsertSorts(le, init, x);
      InsertMembers(le, init, x);
      var t := Insert(le, init, x);
      forall y | y in t ensures le(y, last) {
        assert y in multiset(t);
        if y != x {
          assert y in multiset(init);
        }
      }
    } else if s != [] {
      forall i | 0 <= i < |s| ensures le(s[i], x) {
        assert le(s[i], s[|s| - 1]);
      }
    }
  }

  lemma {:induction false} SortMembers<T>(le: Le<T>, s: seq<T>)
    ensures multiset(Sort(le, s)) == multiset(s)
  {
    if s != [] {
      var init, last := s[..|s| - 1], s[|s| - 1];
      SortMembers(le, init);
      InsertMembers(le, Sort(le, init), last);
      assert s == init + [last];
    }
  }

  lemma {:induction false} SortInOrder<T(!new)>(le: Le<T>, s: seq<T>)
    requires TotalPreorder(le)
    ensures Sorted(le, Sort(le, s))
  {
    if s != [] {
      SortInOrder(le, s[..|s| - 1]);
      InsertSorts(le, Sort(le, s[..|s| - 1]), s[|s| - 1]);
    }
  }

  /** The result is sorted and a permutation. */
  lemma {:induction false} SortSorts<T(!new)>(le: Le<T>, s: seq<T>)
    requires TotalPreorder(le)
    ensures Sorted(le, Sort(le, s)) && multiset(Sort(le, s)) == multiset(s)
  {
    SortInOrder(le, s);
    SortMembers(le, s);
  }

  lemma {:induction false} InsertStable<T(!new)>(le: Le<T>, s: seq<T>, x: T, y: T)
    requires TotalPreorder(le) && Sorted(le, s)
    ensures Class(le, Insert(le, s, x), y) == Class(le, s + [x], y)
  {
    var p := z => Equivalent(le, y, z);
    if s == [] || le(s[|s| - 1], x) {
    } else {
      var init, last := s[..|s| - 1], s[|s| - 1];
      InsertStable(le, init, x, y);
      FilterSnoc(p, Insert(le, init, x), last);
      FilterSnoc(p, init, x);
      FilterSnoc(p, s, x);
    }
  }

  /** Equals keep their order. */
  lemma {:induction false} SortStable<T(!new)>(le: Le<T>, s: seq<T>, y: T)
    requires TotalPreorder(le)
    ensures Class(le, Sort(le, s), y) == Class(le, s, y)
  {
    if s != [] {
      var init, last := s[..|s| - 1], s[|s| - 1];
      SortStable(le, init, y);
      SortSorts(le, init);
      InsertStable(le, Sort(le, init), last, y);
      var p := z => Equivalent(le, y, z);
      FilterSnoc(p, Sort(le, init), last);
    }
  }

  ghost predicate SameClasses<T(!new)>(le: Le<T>, a: seq<T>, b: seq<T>) {
    forall x :: Class(le, a, x) == Class(le, b, x)
  }

  lemma ClassSelf<T(!new)>(le: Le<T>, s: seq<T>)
    requires TotalPreorder(le) && s != []
    ensures Class(le, s, s[|s| - 1]) != []
  {
    assert Equivalent(le, s[|s| - 1], s[|s| - 1]);
  }

  lemma Cancel<T>(a: seq<T>, b: seq<T>, x: T, y: T)
    requires a + [x] == b + [y]
    ensures a == b && x == y
  {
    assert (a + [x])[|a|] == x && (b + [y])[|b|] == y;
    assert a == (a + [x])[..|a|] && b == (b + [y])[..|b|];
  }

  /** Removing equal last members keeps the classes the same. */
  lemma SameClassesInit<T(!new)>(le: Le<T>, a: seq<T>, b: seq<T>)
    requires a != [] && b != [] && a[|a| - 1] == b[|b| - 1] && SameClasses(le, a, b)
    ensures SameClasses(le, a[..|a| - 1], b[..|b| - 1])
  {
    var a', b', x := a[..|a| - 1], b[..|b| - 1], a[|a| - 1];
    forall z ensures Class(le, a', z) == Class(le, b', z) {
      assert Class(le, a, z) == Class(le, b, z);
      if Equivalent(le, z, x) {
        Cancel(Class(le, a', z), Class(le, b', z), x, x);
      } else {
        assert Class(le, a', z) + [] == Class(le, a', z) && Class(le, b', z) + [] == Class(le, b', z);
      }
    }
  }

  /** Being sorted and having given classes determines a list. */
  lemma {:induction false} SortedUnique<T(!new)>(le: Le<T>, a: seq<T>, b: seq<T>)
    requires TotalPreorder(le) && Sorted(le, a) && Sorted(le, b) && SameClasses(le, a, b)
    ensures a == b
    decreases |a|
  {
    if a == [] {
      if b != [] {
        ClassSelf(le, b);
        assert false;
      }
    } else {
      var x := a[|a| - 1];
      assert Equivalent(le, x, x) && Class(le, a, x) == Class(le, b, x);
      var y := b[|b| - 1];
      assert Equivalent(le, y, y) && Class(le, a, y) == Class(le, b, y);
      Topmost(le, a, y);
      Topmost(le, b, x);
      assert Equivalent(le, x, y);
      Cancel(Class(le, a[..|a| - 1], x), Class(le, b[..|b| - 1], x), x, y);
      SameClassesInit(le, a, b);
      SortedUnique(le, a[..|a| - 1], b[..|b| - 1]);
      assert a == a[..|a| - 1] + [x] && b == b[..|b| - 1] + [y];
    }
  }

  lemma Topmost<T(!new)>(le: Le<T>, a: seq<T>, y: T)
    requires TotalPreorder(le) && Sorted(le, a) && a != [] && Class(le, a, y) != []
    ensures le(y, a[|a| - 1])
  {
    var c := Class(le, a, y)[0];
    FilterMember(z => Equivalent(le, y, z), a, c);
    var i :| 0 <= i < |a| && a[i] == c;
    assert le(c, a[|a| - 1]);
  }

  /** Sorting a sorted list changes nothing. */
  lemma {:induction false} SortIdempotent<T(!new)>(le: Le<T>, s: seq<T>)
    requires TotalPreorder(le) && Sorted(le, s)
    ensures Sort(le, s) == s
  {
    SortSorts(le, s);
    forall x {
      SortStable(le, s, x);
    }
    SortedUnique(le, Sort(le, s), s);
  }

  /** Sorting commutes with filtering. */
  lemma {:induction false} SortFilter<T(!new)>(le: Le<T>, p: T -> bool, s: seq<T>)
    requires TotalPreorder(le)
    ensures Filter(p, Sort(le, s)) == Sort(le, Filter(p, s))
  {
    SortSorts(le, s);
    SortSorts(le, Filter(p, s));
    FilterSorted(le, p, Sort(le, s));
    forall x ensures Class(le, Filter(p, Sort(le, s)), x) == Class(le, Sort(le, Filter(p, s)), x) {
      var q := y => Equivalent(le, x, y);
      FilterTwice(q, p, Sort(le, s));
      FilterTwice(q, p, s);
      SortStable(le, s, x);
      SortStable(le, Filter(p, s), x);
    }
    SortedUnique(le, Filter(p, Sort(le, s)), Sort(le, Filter(p, s)));
  }

  /** Sorting again after appending to a sorted list is sorting everything. */
  lemma {:induction false} SortAppend<T(!new)>(le: Le<T>, s: seq<T>, x: T)
    requires TotalPreorder(le)
    ensures Sort(le, Sort(le, s) + [x]) == Sort(le, s + [x])
  {
    SortSorts(le, s);
    SortIdempotent(le, Sort(le, s));
    assert (s + [x])[..|s|] == s && (Sort(le, s) + [x])[..|Sort(le, s)|] == Sort(le, s);
  }

  /** Sorting by `q` and then by `p` decides everything: doing both again to the
      result changes nothing. */
  lemma {:induction false} SortTwiceStable<T(!new)>(p: Le<T>, q: Le<T>, s: seq<T>)
    requires TotalPreorder(p) && TotalPreorder(q)
    ensures Sort(p, Sort(q, Sort(p, Sort(q, s)))) == Sort(p, Sort(q, s))
  {
    var once := Sort(p, Sort(q, s));
    SortSorts(p, Sort(q, s));
    SortSorts(p, Sort(q, once));
    forall x ensures Class(p, Sort(p, Sort(q, once)), x) == Class(p, once, x) {
      var mine := y => Equivalent(p, x, y);
      SortStable(p, Sort(q, once), x);
      SortFilter(q, mine, once);
      SortStable(p, Sort(q, s), x);
      SortFilter(q, mine, s);
      SortSorts(q, Filter(mine, s));
      SortIdempotent(q, Sort(q, Filter(mine, s)));
    }
    SortedUnique(p, Sort(p, Sort(q, once)), once);
  }
}
