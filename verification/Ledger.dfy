/** Paying for a list of items from one budget, where the charge for an item
    depends on a state that every charged item changes. */
module Ledger {
  import opened Prelude

  /** How the state moves on an item, and what the item costs in a state. */
  datatype Meter<!S, !E> = Meter(next: (S, E) -> S, charge: (S, E) -> nat)

  ghost function After<S, E>(m: Meter<S, E>, s: S, items: seq<E>): S {
    if items == [] then s else m.next(After(m, s, items[..|items| - 1]), items[|items| - 1])
  }

  ghost function Spent<S, E>(m: Meter<S, E>, s: S, items: seq<E>): nat {
    if items == [] then 0
    else
      var init := items[..|items| - 1];
      Spent(m, s, init) + m.charge(After(m, s, init), items[|items| - 1])
  }

  lemma {:induction false} Snoc<S, E>(m: Meter<S, E>, s: S, items: seq<E>, e: E)
    ensures After(m, s, items + [e]) == m.next(After(m, s, items), e)
    ensures Spent(m, s, items + [e]) == Spent(m, s, items) + m.charge(After(m, s, items), e)
  {
    assert (items + [e])[..|items|] == items;
  }

  lemma {:induction false} SpentPrefix<S, E>(m: Meter<S, E>, s: S, items: seq<E>, k: nat)
    requires k <= |items|
    ensures Spent(m, s, items[..k]) <= Spent(m, s, items)
    decreases |items|
  {
    if k == |items| {
      assert items[..k] == items;
    } else {
      assert items[..|items| - 1][..k] == items[..k];
      SpentPrefix(m, s, items[..|items| - 1], k);
    }
  }

  /** How many items are charged before the budget is overrun, the overrunning
      one included. */
  ghost function Charged<S, E>(m: Meter<S, E>, s: S, items: seq<E>, budget: nat): (n: nat)
    ensures n <= |items|
  {
    if items == [] then 0
    else
      var init := items[..|items| - 1];
      if Spent(m, s, init) <= budget then |items| else Charged(m, s, init, budget)
  }

  lemma {:induction false} ChargedUpTo<S, E>(m: Meter<S, E>, s: S, items: seq<E>, budget: nat, i: nat)
    requires i < |items| && Spent(m, s, items[..i]) <= budget < Spent(m, s, items[..i + 1])
    ensures Charged(m, s, items, budget) == i + 1
    decreases |items|
  {
    var init := items[..|items| - 1];
    if i == |items| - 1 {
      assert items[..i] == init;
    } else {
      assert init[..i] == items[..i] && init[..i + 1] == items[..i + 1];
      SpentPrefix(m, s, init, i + 1);
      ChargedUpTo(m, s, init, budget, i);
    }
  }

  /** A budget that has paid for `items`. */
  ghost predicate Paid<S, E>(m: Meter<S, E>, s: S, items: seq<E>, budget: nat, now: S, remaining: nat) {
    now == After(m, s, items) && remaining + Spent(m, s, items) == budget
  }

  /** The state once a budget has paid for `items` or been overrun by them. */
  ghost predicate Settled<S, E>(m: Meter<S, E>, s: S, items: seq<E>, budget: nat, now: S) {
    now == After(m, s, items[..Charged(m, s, items, budget)])
  }

  /** The end of paying for `items` in turn: what is left if everything was
      paid for, nothing if the budget was overrun. */
  ghost predicate Metered<S, E>(m: Meter<S, E>, s: S, items: seq<E>, budget: nat, now: S, left: Option<nat>) {
    && Settled(m, s, items, budget, now)
    && left == if Spent(m, s, items) <= budget then Some(budget - Spent(m, s, items)) else None
  }

  /** Paying for the next item, or being overrun by it. */
  lemma PayNext<S, E>(m: Meter<S, E>, s: S, items: seq<E>, i: nat, budget: nat, now: S, remaining: nat)
    requires i < |items| && Paid(m, s, items[..i], budget, now, remaining)
    ensures m.charge(now, items[i]) <= remaining ==>
              Paid(m, s, items[..i + 1], budget, m.next(now, items[i]), remaining - m.charge(now, items[i]))
    ensures m.charge(now, items[i]) > remaining ==> Metered(m, s, items, budget, m.next(now, items[i]), None)
  {
    assert items[..i + 1] == items[..i] + [items[i]];
    Snoc(m, s, items[..i], items[i]);
    if m.charge(now, items[i]) > remaining {
      ChargedUpTo(m, s, items, budget, i);
      SpentPrefix(m, s, items, i + 1);
    }
  }

  /** A budget that has paid for everything. */
  lemma PaidAll<S, E>(m: Meter<S, E>, s: S, items: seq<E>, budget: nat, now: S, remaining: nat)
    requires Paid(m, s, items, budget, now, remaining)
    ensures Metered(m, s, items, budget, now, Some(remaining))
  {
    if items != [] {
      SpentPrefix(m, s, items, |items| - 1);
    }
    assert items[..|items|] == items;
  }

  /** Within the budget everything is charged. */
  lemma {:induction false} SettledWithin<S, E>(m: Meter<S, E>, s: S, items: seq<E>, budget: nat, now: S)
    requires Settled(m, s, items, budget, now) && Spent(m, s, items) <= budget
    ensures now == After(m, s, items)
  {
    if items != [] {
      SpentPrefix(m, s, items, |items| - 1);
    }
    assert items[..|items|] == items;
  }

  // ------------------------------------------------------ plain totals

  function Total<E>(cost: E -> nat, items: seq<E>): nat {
    if items == [] then 0 else Total(cost, items[..|items| - 1]) + cost(items[|items| - 1])
  }

  lemma {:induction false} TotalPrefix<E>(cost: E -> nat, items: seq<E>, k: nat)
    requires k <= |items|
    ensures Total(cost, items[..k]) <= Total(cost, items)
    decreases |items|
  {
    if k == |items| {
      assert items[..k] == items;
    } else {
      assert items[..|items| - 1][..k] == items[..k];
      TotalPrefix(cost, items[..|items| - 1], k);
    }
  }

  lemma TotalSnoc<E>(cost: E -> nat, items: seq<E>, i: nat)
    requires i < |items|
    ensures Total(cost, items[..i + 1]) == Total(cost, items[..i]) + cost(items[i])
  {
    assert items[..i + 1][..i] == items[..i];
  }

  lemma {:induction false} TotalRemove<E>(cost: E -> nat, items: seq<E>, i: nat)
    requires i < |items|
    ensures Total(cost, items) == cost(items[i]) + Total(cost, items[..i] + items[i + 1..])
    decreases |items|
  {
    var rest := items[..i] + items[i + 1..];
    if i == |items| - 1 {
      assert rest == items[..i];
    } else {
      var init := items[..|items| - 1];
      assert rest[..|rest| - 1] == init[..i] + init[i + 1..];
      TotalRemove(cost, init, i);
    }
  }

  /** Taking one occurrence out of a list. */
  lemma Without<E>(a: seq<E>, i: nat)
    requires i < |a|
    ensures multiset(a[..i] + a[i + 1..]) == multiset(a) - multiset{a[i]}
  {
    assert a == a[..i] + ([a[i]] + a[i + 1..]);
  }

  /** A total does not depend on the order. */
  lemma {:induction false} TotalOrderFree<E>(cost: E -> nat, a: seq<E>, b: seq<E>)
    requires multiset(a) == multiset(b)
    ensures Total(cost, a) == Total(cost, b)
    decreases |a|
  {
    if a == [] {
      assert |multiset(b)| == 0;
    } else {
      var last := |a| - 1;
      assert a[last] in multiset(b);
      var i :| 0 <= i < |b| && b[i] == a[last];
      Without(a, last);
      assert a[..last] + a[last + 1..] == a[..last];
      Without(b, i);
      TotalRemove(cost, b, i);
      TotalOrderFree(cost, a[..last], b[..i] + b[i + 1..]);
    }
  }

  /** The first member of a list has a place in every permutation of it. */
  lemma Placed<E>(a: seq<E>, b: seq<E>) returns (i: nat)
    requires a != [] && multiset(a) == multiset(b)
    ensures i < |b| && b[i] == a[0] && multiset(a[..0] + a[1..]) == multiset(b[..i] + b[i + 1..])
  {
    assert a[0] in multiset(b);
    i :| i < |b| && b[i] == a[0];
    Without(a, 0);
    Without(b, i);
  }
}
