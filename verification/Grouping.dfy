/** Splitting a list into one list per key, in order of first appearance. */
module Grouping {
  import opened StableSort

  /** Where a group's leader is; the length if it has none. */
  function Place<T, K(==)>(key: T -> K, leaders: seq<T>, g: K): (p: nat)
    ensures p <= |leaders| && (p < |leaders| ==> key(leaders[p]) == g)
  {
    if leaders == [] then 0
    else
      var p, last := Place(key, leaders[..|leaders| - 1], g), |leaders| - 1;
      if p < last || key(leaders[last]) == g then p else |leaders|
  }

  /** The first member of each group, in order of appearance. */
  function Leaders<T, K(==)>(key: T -> K, s: seq<T>): seq<T> {
    if s == [] then []
    else
      var before := Leaders(key, s[..|s| - 1]);
      if Place(key, before, key(s[|s| - 1])) < |before| then before else before + [s[|s| - 1]]
  }

  /** The members of one group, in order. */
  function Members<T, K(==)>(key: T -> K, g: K, s: seq<T>): seq<T> {
    Filter(x => key(x) == g, s)
  }

  /** The sorted list of one group. */
  function GroupOf<T, K(==)>(key: T -> K, le: Le<T>, s: seq<T>, leader: T): seq<T> {
    Sort(le, Members(key, key(leader), s))
  }

  /** One list per group, in order of the leaders, each sorted by `le`. */
  function Grouped<T, K(==)>(key: T -> K, le: Le<T>, s: seq<T>): (r: seq<seq<T>>)
    ensures |r| == |Leaders(key, s)|
  {
    seq(|Leaders(key, s)|, k requires 0 <= k < |Leaders(key, s)| => GroupOf(key, le, s, Leaders(key, s)[k]))
  }

  lemma {:induction false} PlaceSnoc<T, K>(key: T -> K, leaders: seq<T>, x: T, g: K)
    ensures Place(key, leaders + [x], g) ==
            var p := Place(key, leaders, g);
            if p < |leaders| || key(x) == g then p else |leaders| + 1
  {
    assert (leaders + [x])[..|leaders|] == leaders;
  }

  lemma {:induction false} PlaceFirst<T, K>(key: T -> K, leaders: seq<T>, g: K, k: nat)
    requires k < |leaders| && key(leaders[k]) == g
    ensures Place(key, leaders, g) <= k
  {
    if k < |leaders| - 1 {
      PlaceFirst(key, leaders[..|leaders| - 1], g, k);
    }
  }

  /** Every member's group has a leader. */
  lemma {:induction false} Led<T, K>(key: T -> K, s: seq<T>, i: nat)
    requires i < |s|
    ensures Place(key, Leaders(key, s), key(s[i])) < |Leaders(key, s)|
    decreases |s|
  {
    var init, last := s[..|s| - 1], s[|s| - 1];
    var before := Leaders(key, init);
    PlaceSnoc(key, before, last, key(s[i]));
    if i < |init| {
      Led(key, init, i);
    }
  }

  /** Different leaders lead different groups. */
  lemma {:induction false} LeadersDiffer<T, K>(key: T -> K, s: seq<T>, k: nat, l: nat)
    requires k < l < |Leaders(key, s)|
    ensures key(Leaders(key, s)[k]) != key(Leaders(key, s)[l])
    decreases |s|
  {
    var init, last := s[..|s| - 1], s[|s| - 1];
    var before := Leaders(key, init);
    if l < |before| {
      LeadersDiffer(key, init, k, l);
    } else if key(before[k]) == key(last) {
      PlaceFirst(key, before, key(last), k);
    }
  }

  lemma {:induction false} LeadersAreMembers<T, K>(key: T -> K, s: seq<T>, k: nat) returns (i: nat)
    requires k < |Leaders(key, s)|
    ensures i < |s| && s[i] == Leaders(key, s)[k]
    decreases |s|
  {
    var init := s[..|s| - 1];
    if k < |Leaders(key, init)| {
      i := LeadersAreMembers(key, init, k);
    } else {
      i := |init|;
    }
  }

  /** In a sorted list the leaders are in order ... */
  lemma {:induction false} LeadersSorted<T(!new), K>(key: T -> K, le: Le<T>, s: seq<T>, k: nat, l: nat)
    requires Sorted(le, s) && k < l < |Leaders(key, s)|
    ensures le(Leaders(key, s)[k], Leaders(key, s)[l])
    decreases |s|
  {
    var init := s[..|s| - 1];
    if l < |Leaders(key, init)| {
      LeadersSorted(key, le, init, k, l);
    } else {
      var i := LeadersAreMembers(key, init, k);
    }
  }

  /** ... and each is best in its group. */
  lemma {:induction false} LeadersBest<T(!new), K>(key: T -> K, le: Le<T>, s: seq<T>, i: nat)
    requires Sorted(le, s) && TotalPreorder(le) && i < |s|
    ensures Place(key, Leaders(key, s), key(s[i])) < |Leaders(key, s)|
    ensures le(Leaders(key, s)[Place(key, Leaders(key, s), key(s[i]))], s[i])
    decreases |s|
  {
    Led(key, s, i);
    var init, last := s[..|s| - 1], s[|s| - 1];
    var before := Leaders(key, init);
    PlaceSnoc(key, before, last, key(s[i]));
    if i < |init| {
      Led(key, init, i);
      LeadersBest(key, le, init, i);
    } else if Place(key, before, key(last)) < |before| {
      var j := LeadersAreMembers(key, init, Place(key, before, key(last)));
    }
  }

  lemma MembersSnoc<T, K>(key: T -> K, g: K, s: seq<T>, x: T)
    ensures Members(key, g, s + [x]) == if key(x) == g then Members(key, g, s) + [x] else Members(key, g, s)
  {
    FilterSnoc(y => key(y) == g, s, x);
  }

  /** A newcomer joins the list of its group, which is sorted again. */
  lemma {:induction false} GroupedJoins<T(!new), K>(key: T -> K, le: Le<T>, s: seq<T>, x: T)
    requires TotalPreorder(le) && Place(key, Leaders(key, s), key(x)) < |Leaders(key, s)|
    ensures var k, r := Place(key, Leaders(key, s), key(x)), Grouped(key, le, s);
            Grouped(key, le, s + [x]) == r[k := Sort(le, r[k] + [x])]
  {
    assert (s + [x])[..|s|] == s;
    var leaders, r := Leaders(key, s), Grouped(key, le, s);
    var k := Place(key, leaders, key(x));
    assert Leaders(key, s + [x]) == leaders;
    forall l | 0 <= l < |leaders| ensures GroupOf(key, le, s + [x], leaders[l]) == r[k := Sort(le, r[k] + [x])][l] {
      MembersSnoc(key, key(leaders[l]), s, x);
      if l == k {
        SortAppend(le, Members(key, key(x), s), x);
      } else if l < k {
        LeadersDiffer(key, s, l, k);
      } else {
        LeadersDiffer(key, s, k, l);
      }
    }
  }

  lemma {:induction false} NoMembers<T, K>(key: T -> K, s: seq<T>, g: K)
    requires Place(key, Leaders(key, s), g) == |Leaders(key, s)|
    ensures Members(key, g, s) == []
  {
    var m := Members(key, g, s);
    if m != [] {
      FilterMember(z => key(z) == g, s, m[0]);
      var i :| 0 <= i < |s| && s[i] == m[0];
      Led(key, s, i);
    }
  }

  lemma {:induction false} NewGroup<T(!new), K>(key: T -> K, le: Le<T>, s: seq<T>, x: T)
    requires Place(key, Leaders(key, s), key(x)) == |Leaders(key, s)|
    ensures GroupOf(key, le, s + [x], x) == [x]
  {
    NoMembers(key, s, key(x));
    MembersSnoc(key, key(x), s, x);
    assert Members(key, key(x), s + [x]) == [x];
    SortOne(le, x);
  }

  lemma {:induction false} OldGroup<T(!new), K>(key: T -> K, le: Le<T>, s: seq<T>, x: T, l: nat)
    requires Place(key, Leaders(key, s), key(x)) == |Leaders(key, s)| && l < |Leaders(key, s)|
    ensures GroupOf(key, le, s + [x], Leaders(key, s)[l]) == GroupOf(key, le, s, Leaders(key, s)[l])
  {
    MembersSnoc(key, key(Leaders(key, s)[l]), s, x);
    if key(Leaders(key, s)[l]) == key(x) {
      PlaceFirst(key, Leaders(key, s), key(x), l);
    }
  }

  /** A newcomer of an unseen group starts a list. */
  lemma {:induction false} GroupedStarts<T(!new), K>(key: T -> K, le: Le<T>, s: seq<T>, x: T)
    requires Place(key, Leaders(key, s), key(x)) == |Leaders(key, s)|
    ensures Grouped(key, le, s + [x]) == Grouped(key, le, s) + [[x]]
  {
    assert (s + [x])[..|s|] == s;
    var leaders, after := Leaders(key, s), Grouped(key, le, s + [x]);
    assert Leaders(key, s + [x]) == leaders + [x];
    NewGroup(key, le, s, x);
    assert after[|leaders|] == [x];
    forall l: nat | l < |leaders| ensures after[l] == Grouped(key, le, s)[l] {
      OldGroup(key, le, s, x, l);
    }
  }

  lemma SortOne<T>(le: Le<T>, x: T)
    ensures Sort(le, [x]) == [x]
  {
    assert [x][..0] == [] && [] + [x] == [x];
  }

  /** All members of all lists. */
  ghost function Union<T>(r: seq<seq<T>>): multiset<T> {
    if r == [] then multiset{} else Union(r[..|r| - 1]) + multiset(r[|r| - 1])
  }

  lemma {:induction false} UnionGrows<T>(r: seq<seq<T>>, k: nat, t: seq<T>, x: T)
    requires k < |r| && multiset(t) == multiset(r[k]) + multiset{x}
    ensures Union(r[k := t]) == Union(r) + multiset{x}
  {
    var u, init, last := r[k := t], r[..|r| - 1], |r| - 1;
    if k == last {
      assert u[..last] == init && u[last] == t;
      assert Union(u) == Union(init) + multiset(t);
    } else {
      assert u[..last] == init[k := t] && init[k] == r[k] && u[last] == r[last];
      UnionGrows(init, k, t, x);
      assert Union(u) == Union(init[k := t]) + multiset(r[last]);
    }
  }

  /** Grouping loses and invents nothing. */
  lemma {:induction false} GroupedPermutes<T(!new), K>(key: T -> K, le: Le<T>, s: seq<T>)
    requires TotalPreorder(le)
    ensures Union(Grouped(key, le, s)) == multiset(s)
  {
    if s != [] {
      var init, last := s[..|s| - 1], s[|s| - 1];
      assert s == init + [last];
      GroupedPermutes(key, le, init);
      var r, k := Grouped(key, le, init), Place(key, Leaders(key, init), key(last));
      if k < |r| {
        GroupedJoins(key, le, init, last);
        SortSorts(le, r[k] + [last]);
        UnionGrows(r, k, Sort(le, r[k] + [last]), last);
      } else {
        GroupedStarts(key, le, init, last);
        assert (r + [[last]])[..|r|] == r;
      }
    }
  }

  lemma {:induction false} SingleLeader<T, K>(key: T -> K, s: seq<T>, g: K)
    requires s != [] && forall i | 0 <= i < |s| :: key(s[i]) == g
    ensures |Leaders(key, s)| == 1 && key(Leaders(key, s)[0]) == g
  {
    var init := s[..|s| - 1];
    if init != [] {
      SingleLeader(key, init, g);
      PlaceFirst(key, Leaders(key, init), g, 0);
    }
  }

  /** A list with a single key is one group. */
  lemma {:induction false} GroupedSingle<T(!new), K>(key: T -> K, le: Le<T>, s: seq<T>, g: K)
    requires s != [] && forall i | 0 <= i < |s| :: key(s[i]) == g
    ensures Grouped(key, le, s) == [Sort(le, s)]
  {
    FilterAll(x => key(x) == g, s);
    SingleLeader(key, s, g);
  }

  // ------------------------------------------- what the groups are made of

  lemma MembersMember<T, K>(key: T -> K, g: K, s: seq<T>, x: T)
    ensures x in Members(key, g, s) <==> x in s && key(x) == g
  {
    FilterMember(y => key(y) == g, s, x);
  }

  lemma {:induction false} SortMember<T(!new)>(le: Le<T>, s: seq<T>, x: T)
    requires TotalPreorder(le)
    ensures (x in Sort(le, s) <==> x in s) && |Sort(le, s)| == |s|
  {
    SortSorts(le, s);
    assert x in Sort(le, s) <==> x in multiset(Sort(le, s));
    assert |Sort(le, s)| == |multiset(Sort(le, s))| && |s| == |multiset(s)|;
  }

  /** A list holds its leader and nothing but members of its group. */
  lemma {:induction false} GroupHolds<T(!new), K>(key: T -> K, le: Le<T>, s: seq<T>, k: nat)
    requires TotalPreorder(le) && k < |Leaders(key, s)|
    ensures var r, leader := Grouped(key, le, s)[k], Leaders(key, s)[k];
            r != [] && leader in r && forall x | x in r :: x in s && key(x) == key(leader)
  {
    var r, leader := Grouped(key, le, s)[k], Leaders(key, s)[k];
    var i := LeadersAreMembers(key, s, k);
    var mine := Members(key, key(leader), s);
    forall x ensures x in r <==> x in s && key(x) == key(leader) {
      MembersMember(key, key(leader), s, x);
      SortMember(le, mine, x);
    }
    assert leader in r;
  }

  /** Looking a group up by the first member of its list. */
  ghost predicate Finds<T, K>(key: T -> K, r: seq<seq<T>>, g: K, k: nat) {
    && k <= |r| && (k < |r| ==> r[k] != [] && key(r[k][0]) == g)
    && forall j | 0 <= j < k :: r[j] != [] && key(r[j][0]) != g
  }

  lemma {:induction false} FoundPlace<T(!new), K>(key: T -> K, le: Le<T>, s: seq<T>, g: K, k: nat)
    requires TotalPreorder(le) && Finds(key, Grouped(key, le, s), g, k)
    ensures k == Place(key, Leaders(key, s), g)
  {
    var leaders, r := Leaders(key, s), Grouped(key, le, s);
    var p := Place(key, leaders, g);
    if k < |leaders| {
      GroupHolds(key, le, s, k);
      assert r[k][0] in r[k];
      PlaceFirst(key, leaders, g, k);
    }
    if p < k {
      GroupHolds(key, le, s, p);
    }
  }

  lemma {:induction false} LeaderPlace<T, K>(key: T -> K, s: seq<T>, l: nat)
    requires l < |Leaders(key, s)|
    ensures Place(key, Leaders(key, s), key(Leaders(key, s)[l])) == l
  {
    var leaders := Leaders(key, s);
    PlaceFirst(key, leaders, key(leaders[l]), l);
    var p := Place(key, leaders, key(leaders[l]));
    if p < l {
      LeadersDiffer(key, s, p, l);
    }
  }

  /** Some member of `a` is no worse than every member of `b`. */
  ghost predicate BestBefore<T(!new)>(le: Le<T>, a: seq<T>, b: seq<T>) {
    exists x :: x in a && forall y | y in b :: le(x, y)
  }

  /** In a list sorted by `rank` the groups come in order of their best members. */
  lemma {:induction false} GroupsRanked<T(!new), K>(key: T -> K, le: Le<T>, rank: Le<T>, s: seq<T>, k: nat, l: nat)
    requires TotalPreorder(le) && TotalPreorder(rank) && Sorted(rank, s) && k < l < |Leaders(key, s)|
    ensures BestBefore(rank, Grouped(key, le, s)[k], Grouped(key, le, s)[l])
  {
    var leaders := Leaders(key, s);
    GroupHolds(key, le, s, k);
    GroupHolds(key, le, s, l);
    LeadersSorted(key, rank, s, k, l);
    forall y | y in Grouped(key, le, s)[l] ensures rank(leaders[k], y) {
      var i :| 0 <= i < |s| && s[i] == y;
      LeadersBest(key, rank, s, i);
      LeaderPlace(key, s, l);
    }
  }

  /** The list of a group is what ranking and sorting that group alone gives. */
  lemma {:induction false} GroupAlone<T(!new), K>(key: T -> K, le: Le<T>, rank: Le<T>, s: seq<T>, k: nat)
    requires TotalPreorder(rank) && k < |Leaders(key, Sort(rank, s))|
    ensures var g := key(Leaders(key, Sort(rank, s))[k]);
            Grouped(key, le, Sort(rank, s))[k] == Sort(le, Sort(rank, Members(key, g, s)))
  {
    var g := key(Leaders(key, Sort(rank, s))[k]);
    SortFilter(rank, x => key(x) == g, s);
  }

  lemma {:induction false} SortKeepsKey<T(!new), K>(key: T -> K, le: Le<T>, s: seq<T>, g: K)
    requires TotalPreorder(le) && forall x | x in s :: key(x) == g
    ensures forall x | x in Sort(le, s) :: key(x) == g
  {
    forall x | x in Sort(le, s) ensures key(x) == g {
      SortMember(le, s, x);
    }
  }

  /** Ranking and grouping a one-group list gives one list, and doing it to that
      list again gives the same. */
  lemma {:induction false} GroupAgain<T(!new), K>(key: T -> K, le: Le<T>, rank: Le<T>, s: seq<T>, g: K)
    requires TotalPreorder(le) && TotalPreorder(rank) && s != [] && forall x | x in s :: key(x) == g
    ensures var list := Sort(le, Sort(rank, s));
            && list != []
            && Grouped(key, le, Sort(rank, s)) == [list]
            && Grouped(key, le, Sort(rank, list)) == [list]
  {
    var list := Sort(le, Sort(rank, s));
    SortKeepsKey(key, rank, s, g);
    SortKeepsKey(key, le, Sort(rank, s), g);
    SortKeepsKey(key, rank, list, g);
    SortMember(rank, s, s[0]);
    SortMember(le, Sort(rank, s), s[0]);
    SortMember(rank, list, s[0]);
    GroupedSingle(key, le, Sort(rank, s), g);
    GroupedSingle(key, le, Sort(rank, list), g);
    SortTwiceStable(le, rank, s);
  }
}
