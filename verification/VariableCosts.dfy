/** Lazily charged costs of `spec.variables[*]`: a worklist over a reference
    graph that may have cycles. */
module VariableCosts {
  import opened Prelude

  /** The nearest `i64` to a non-negative amount. */
  function Saturate(n: nat): (r: nat)
    ensures r <= I64_MAX
  {
    if n <= I64_MAX then n else I64_MAX
  }

  /** Saturating step by step loses nothing that saturating at the end keeps. */
  lemma SaturateAdd(a: nat, b: nat)
    ensures Saturate(Saturate(a) + Saturate(b)) == Saturate(a + b)
  {
  }

  /** The members of a list. */
  ghost function Elems(s: seq<string>): set<string> {
    if s == [] then {} else Elems(s[..|s| - 1]) + {s[|s| - 1]}
  }

  lemma {:induction false} ElemsConcat(a: seq<string>, b: seq<string>)
    ensures Elems(a + b) == Elems(a) + Elems(b)
    decreases |b|
  {
    if b == [] {
      assert a + b == a;
    } else {
      assert (a + b)[..|a + b| - 1] == a + b[..|b| - 1];
      ElemsConcat(a, b[..|b| - 1]);
    }
  }

  // ------------------------------------------------- textual references

  const PREFIX := "variables."

  predicate IsIdent(c: char) {
    ('a' <= c <= 'z') || ('A' <= c <= 'Z') || ('0' <= c <= '9') || c == '_'
  }

  predicate OccursAt(s: string, i: nat) {
    i + |PREFIX| <= |s| && s[i..i + |PREFIX|] == PREFIX
  }

  /** The end of the identifier that starts at `i`. */
  function IdentEnd(s: string, i: nat): (r: nat)
    requires i <= |s|
    ensures i <= r <= |s|
    ensures forall k | i <= k < r :: IsIdent(s[k])
    ensures r < |s| ==> !IsIdent(s[r])
    decreases |s| - i
  {
    if i < |s| && IsIdent(s[i]) then IdentEnd(s, i + 1) else i
  }

  /** The name referenced by an occurrence of the prefix; empty if none. */
  function NameAt(s: string, i: nat): string
    requires OccursAt(s, i)
  {
    s[i + |PREFIX|..IdentEnd(s, i + |PREFIX|)]
  }

  /** The set of variables a text refers to. */
  ghost function Referenced(s: string): set<string> {
    set i: nat | i < |s| && OccursAt(s, i) && NameAt(s, i) != "" :: NameAt(s, i)
  }

  /** The prefix does not overlap itself. */
  lemma NoOverlap(s: string, i: nat, j: nat)
    requires OccursAt(s, i) && OccursAt(s, j) && i < j
    ensures i + |PREFIX| <= j
  {
    assert s[j] == s[j..j + |PREFIX|][0];
  }

  /** `referenced_variables`: leftmost non-overlapping matches miss nothing. */
  method ReferencedVariables(s: string) returns (names: seq<string>)
    ensures Elems(names) == Referenced(s)
  {
    names := [];
    var i := 0;
    while i < |s|
      invariant 0 <= i
      invariant Elems(names) <= Referenced(s)
      invariant forall k: nat | k < i && k < |s| && OccursAt(s, k) && NameAt(s, k) != "" :: NameAt(s, k) in Elems(names)
    {
      if OccursAt(s, i) {
        if NameAt(s, i) != "" {
          assert (names + [NameAt(s, i)])[..|names|] == names;
          names := names + [NameAt(s, i)];
        }
        forall k: nat | i < k && OccursAt(s, k) ensures i + |PREFIX| <= k {
          NoOverlap(s, i, k);
        }
        i := i + |PREFIX|;
      } else {
        i := i + 1;
      }
    }
  }

  // -------------------------------------------------------- the graph

  datatype Entry = Entry(cost: nat, deps: seq<string>)
  type Entries = map<string, Entry>

  /** What the expression of a recorded variable refers to. */
  ghost function Deps(entries: Entries, v: string): set<string> {
    if v in entries then Elems(entries[v].deps) else {}
  }

  /** A chain of recorded, uncharged variables from a root, each referring to the next. */
  ghost predicate Chain(entries: Entries, charged: set<string>, roots: set<string>, p: seq<string>) {
    && p != [] && p[0] in roots
    && (forall i | 0 <= i < |p| :: p[i] in entries && p[i] !in charged)
    && (forall i, j | 0 <= i < |p| && j == i + 1 < |p| :: p[j] in Deps(entries, p[i]))
  }

  ghost predicate Reaches(entries: Entries, charged: set<string>, roots: set<string>, v: string) {
    exists p :: Chain(entries, charged, roots, p) && p[|p| - 1] == v
  }

  /** The recorded variables reached from `roots` through uncharged ones. */
  ghost function Fresh(entries: Entries, charged: set<string>, roots: set<string>): set<string> {
    set v | v in entries && Reaches(entries, charged, roots, v)
  }

  /** All recorded variables reachable from `roots`. */
  ghost function Reach(entries: Entries, roots: set<string>): set<string> {
    Fresh(entries, {}, roots)
  }

  /** The recorded cost of a variable; an unrecorded one costs nothing. */
  ghost function CostOf(entries: Entries, v: string): nat {
    if v in entries then entries[v].cost else 0
  }

  ghost function SumCost(entries: Entries, s: set<string>): nat {
    if s == {} then 0
    else
      var v :| v in s;
      CostOf(entries, v) + SumCost(entries, s - {v})
  }

  lemma {:induction false} SumCostRemove(entries: Entries, s: set<string>, v: string)
    requires v in s
    ensures SumCost(entries, s) == CostOf(entries, v) + SumCost(entries, s - {v})
    decreases s
  {
    var u :| u in s && SumCost(entries, s) == CostOf(entries, u) + SumCost(entries, s - {u});
    if u != v {
      SumCostRemove(entries, s - {u}, v);
      SumCostRemove(entries, s - {v}, u);
      assert s - {u} - {v} == s - {v} - {u};
    }
  }

  lemma {:induction false} SumCostUnion(entries: Entries, a: set<string>, b: set<string>)
    requires a !! b
    ensures SumCost(entries, a + b) == SumCost(entries, a) + SumCost(entries, b)
    decreases a
  {
    if a == {} {
      assert a + b == b;
    } else {
      var v :| v in a;
      SumCostRemove(entries, a, v);
      SumCostRemove(entries, a + b, v);
      assert (a + b) - {v} == (a - {v}) + b;
      SumCostUnion(entries, a - {v}, b);
    }
  }

  lemma RootReaches(entries: Entries, charged: set<string>, roots: set<string>, v: string)
    requires v in roots && v in entries && v !in charged
    ensures Reaches(entries, charged, roots, v)
  {
    assert Chain(entries, charged, roots, [v]);
  }

  lemma DepReaches(entries: Entries, charged: set<string>, roots: set<string>, v: string, w: string)
    requires Reaches(entries, charged, roots, v)
    requires w in Deps(entries, v) && w in entries && w !in charged
    ensures Reaches(entries, charged, roots, w)
  {
    var p :| Chain(entries, charged, roots, p) && p[|p| - 1] == v;
    var q := p + [w];
    assert Chain(entries, charged, roots, q) && q[|q| - 1] == w;
  }

  /** `inside` holds the live roots and everything live its members refer to. */
  ghost predicate Closed(entries: Entries, charged: set<string>, roots: set<string>, inside: set<string>) {
    var live := entries.Keys - charged;
    roots * live <= inside && forall v | v in inside :: Deps(entries, v) * live <= inside
  }

  lemma {:induction false} ChainInside(entries: Entries, charged: set<string>, roots: set<string>, inside: set<string>, p: seq<string>)
    requires Chain(entries, charged, roots, p) && Closed(entries, charged, roots, inside)
    ensures p[|p| - 1] in inside
    decreases |p|
  {
    if |p| > 1 {
      var q := p[..|p| - 1];
      assert Chain(entries, charged, roots, q);
      ChainInside(entries, charged, roots, inside, q);
      assert p[|p| - 1] in Deps(entries, p[|p| - 2]);
    }
  }

  /** A closed set holds everything fresh. */
  lemma FreshInside(entries: Entries, charged: set<string>, roots: set<string>, inside: set<string>)
    requires Closed(entries, charged, roots, inside)
    ensures Fresh(entries, charged, roots) <= inside
  {
    forall v | v in Fresh(entries, charged, roots) ensures v in inside {
      var p :| Chain(entries, charged, roots, p) && p[|p| - 1] == v;
      ChainInside(entries, charged, roots, inside, p);
    }
  }

  /** The fresh variables are themselves closed. */
  lemma FreshClosed(entries: Entries, charged: set<string>, roots: set<string>)
    ensures Closed(entries, charged, roots, Fresh(entries, charged, roots))
    ensures Fresh(entries, charged, roots) <= entries.Keys - charged
  {
    forall v | v in roots && v in entries && v !in charged ensures Reaches(entries, charged, roots, v) {
      RootReaches(entries, charged, roots, v);
    }
    forall v, w | v in Fresh(entries, charged, roots) && w in Deps(entries, v) && w in entries && w !in charged
      ensures Reaches(entries, charged, roots, w)
    {
      DepReaches(entries, charged, roots, v, w);
    }
  }

  /** The worklist, started when the charged set was `before`: only fresh
      variables have been charged since, nothing fresh is lost, and `total` is
      the saturated cost of what has been charged. */
  ghost predicate Work(entries: Entries, before: set<string>, roots: set<string>, charged: set<string>, todo: set<string>, total: nat) {
    var live, found, taken := entries.Keys - before, Fresh(entries, before, roots), charged - before;
    && before <= charged && taken <= found && todo * live <= found
    && roots * live <= taken + todo
    && (forall v | v in taken :: Deps(entries, v) * live <= taken + todo)
    && total == Saturate(SumCost(entries, taken))
  }

  lemma WorkStarts(entries: Entries, before: set<string>, roots: set<string>)
    ensures Work(entries, before, roots, before, roots, 0)
  {
    FreshClosed(entries, before, roots);
    assert before - before == {};
  }

  /** A name that needs no charge is dropped. */
  lemma WorkSkips(entries: Entries, before: set<string>, roots: set<string>, charged: set<string>, todo: set<string>, total: nat, name: string)
    requires Work(entries, before, roots, charged, todo + {name}, total)
    requires name in charged || name !in entries
    ensures Work(entries, before, roots, charged, todo, total)
  {
  }

  /** A new recorded name is charged and its references follow. */
  lemma WorkTakes(entries: Entries, before: set<string>, roots: set<string>, charged: set<string>, todo: set<string>, total: nat, name: string)
    requires Work(entries, before, roots, charged, todo + {name}, total)
    requires name !in charged && name in entries
    ensures Work(entries, before, roots, charged + {name}, todo + Deps(entries, name), Saturate(total + Saturate(entries[name].cost)))
  {
    FreshClosed(entries, before, roots);
    var taken := charged - before;
    assert charged + {name} - before == taken + {name};
    SumCostRemove(entries, taken + {name}, name);
    assert taken + {name} - {name} == taken;
    SaturateAdd(SumCost(entries, taken), entries[name].cost);
  }

  lemma {:induction false} WorkEnds(entries: Entries, before: set<string>, roots: set<string>, charged: set<string>, total: nat)
    requires Work(entries, before, roots, charged, {}, total)
    ensures charged == before + Fresh(entries, before, roots)
    ensures total == Saturate(SumCost(entries, Fresh(entries, before, roots)))
  {
    FreshInside(entries, before, roots, charged - before);
    assert charged - before == Fresh(entries, before, roots);
  }

  // ------------------------------------------------------------ charging

  class VariableCosts {
    var entries: Entries
    var charged: set<string>

    constructor ()
      ensures entries == map[] && charged == {}
    {
      entries := map[];
      charged := {};
    }

    method Record(name: string, expression: string, cost: nat)
      modifies this`entries
      ensures name in entries && entries[name].cost == cost
      ensures Deps(entries, name) == Referenced(expression)
      ensures entries == old(entries)[name := entries[name]]
    {
      var deps := ReferencedVariables(expression);
      entries := entries[name := Entry(cost, deps)];
    }

    /** Charges the recorded variables the expression reaches and that are not
        charged yet, each once; the reference graph may have cycles. */
    method CompositionCost(expression: string) returns (total: nat)
      modifies this`charged
      ensures charged == old(charged) + Fresh(entries, old(charged), Referenced(expression))
      ensures total == Saturate(SumCost(entries, Fresh(entries, old(charged), Referenced(expression))))
    {
      ghost var before, roots := charged, Referenced(expression);
      total := 0;
      var pending := ReferencedVariables(expression);
      WorkStarts(entries, before, roots);
      while pending != []
        invariant Work(entries, before, roots, charged, Elems(pending), total)
        decreases entries.Keys - charged, |pending|
      {
        var name := pending[|pending| - 1];
        pending := pending[..|pending| - 1];
        if name !in charged && name in entries {
          WorkTakes(entries, before, roots, charged, Elems(pending), total, name);
          ElemsConcat(pending, entries[name].deps);
          total := Saturate(total + Saturate(entries[name].cost));
          pending := pending + entries[name].deps;
          charged := charged + {name};
        } else {
          WorkSkips(entries, before, roots, charged, Elems(pending), total, name);
        }
      }
      WorkEnds(entries, before, roots, charged, total);
    }
  }

  // ------------------------------------------- sequences of expressions

  /** Whatever a charged variable refers to is charged as well. */
  ghost predicate ChargedClosed(entries: Entries, charged: set<string>) {
    Closed(entries, {}, {}, charged)
  }

  /** With a closed charged set, fresh simply means reachable and not charged;
      charging keeps the set closed. */
  lemma FreshIsReach(entries: Entries, charged: set<string>, roots: set<string>)
    requires ChargedClosed(entries, charged)
    ensures Fresh(entries, charged, roots) == Reach(entries, roots) - charged
    ensures ChargedClosed(entries, charged + Fresh(entries, charged, roots))
  {
    var found := Fresh(entries, charged, roots);
    FreshClosed(entries, charged, roots);
    FreshInside(entries, {}, roots, charged + found);
    FreshClosed(entries, {}, roots);
    FreshInside(entries, charged, roots, Reach(entries, roots));
  }

  lemma ReachUnion(entries: Entries, a: set<string>, b: set<string>)
    ensures Reach(entries, a + b) == Reach(entries, a) + Reach(entries, b)
  {
    FreshClosed(entries, {}, a);
    FreshClosed(entries, {}, b);
    FreshClosed(entries, {}, a + b);
    FreshInside(entries, {}, a + b, Reach(entries, a) + Reach(entries, b));
    FreshInside(entries, {}, a, Reach(entries, a + b));
    FreshInside(entries, {}, b, Reach(entries, a + b));
  }

  ghost function RootsOf(exprs: seq<string>): set<string> {
    if exprs == [] then {} else RootsOf(exprs[..|exprs| - 1]) + Referenced(exprs[|exprs| - 1])
  }

  lemma {:induction false} RootsOfMember(exprs: seq<string>, n: string)
    ensures n in RootsOf(exprs) <==> exists e :: e in exprs && n in Referenced(e)
  {
    if exprs != [] {
      var last := exprs[|exprs| - 1];
      assert exprs == exprs[..|exprs| - 1] + [last];
      RootsOfMember(exprs[..|exprs| - 1], n);
    }
  }

  /** The charged set after the composition cost of each expression in turn. */
  ghost function ChargedAfter(entries: Entries, charged: set<string>, exprs: seq<string>): set<string> {
    if exprs == [] then charged
    else
      var before := ChargedAfter(entries, charged, exprs[..|exprs| - 1]);
      before + Fresh(entries, before, Referenced(exprs[|exprs| - 1]))
  }

  /** The unsaturated composition costs of the expressions, added up. */
  ghost function Composition(entries: Entries, charged: set<string>, exprs: seq<string>): nat {
    if exprs == [] then 0
    else
      var before := ChargedAfter(entries, charged, exprs[..|exprs| - 1]);
      Composition(entries, charged, exprs[..|exprs| - 1]) + SumCost(entries, Fresh(entries, before, Referenced(exprs[|exprs| - 1])))
  }

  /** Lazily charged, the expressions cost what the union of the variables they
      reach costs, each variable once. */
  lemma {:induction false} CompositionIsUnion(entries: Entries, charged: set<string>, exprs: seq<string>)
    requires ChargedClosed(entries, charged)
    ensures ChargedAfter(entries, charged, exprs) == charged + Reach(entries, RootsOf(exprs))
    ensures ChargedClosed(entries, ChargedAfter(entries, charged, exprs))
    ensures Composition(entries, charged, exprs) == SumCost(entries, Reach(entries, RootsOf(exprs)) - charged)
    decreases |exprs|
  {
    if exprs == [] {
      FreshInside(entries, {}, {}, {});
      assert Reach(entries, {}) - charged == {};
    } else {
      var init, roots := exprs[..|exprs| - 1], Referenced(exprs[|exprs| - 1]);
      CompositionIsUnion(entries, charged, init);
      var before := ChargedAfter(entries, charged, init);
      FreshIsReach(entries, before, roots);
      ReachUnion(entries, RootsOf(init), roots);
      var old_, new_ := Reach(entries, RootsOf(init)) - charged, Fresh(entries, before, roots);
      assert Reach(entries, RootsOf(exprs)) - charged == old_ + new_;
      SumCostUnion(entries, old_, new_);
    }
  }

  /** The order in which expressions are charged does not change what they cost
      together. */
  lemma {:induction false} CompositionOrderFree(entries: Entries, charged: set<string>, exprs: seq<string>, exprs': seq<string>)
    requires ChargedClosed(entries, charged)
    requires multiset(exprs) == multiset(exprs')
    ensures Composition(entries, charged, exprs) == Composition(entries, charged, exprs')
    ensures ChargedAfter(entries, charged, exprs) == ChargedAfter(entries, charged, exprs')
  {
    CompositionIsUnion(entries, charged, exprs);
    CompositionIsUnion(entries, charged, exprs');
    assert RootsOf(exprs) == RootsOf(exprs') by {
      forall n ensures n in RootsOf(exprs) <==> n in RootsOf(exprs') {
        RootsOfMember(exprs, n);
        RootsOfMember(exprs', n);
        assert forall e :: e in exprs <==> e in multiset(exprs);
        assert forall e :: e in exprs' <==> e in multiset(exprs');
      }
    }
  }

  /** Exactly when recording a variable keeps the charged set closed: a charged
      one must refer to charged variables only, an uncharged one must not be
      referred to by a charged variable.  Before the first charge every record
      does. */
  lemma RecordKeepsClosure(entries: Entries, charged: set<string>, name: string, entry: Entry)
    requires ChargedClosed(entries, charged)
    ensures ChargedClosed(entries[name := entry], charged) <==>
            if name in charged then Elems(entry.deps) * (entries.Keys + {name}) <= charged
            else forall v | v in charged :: name !in Deps(entries, v)
  {
    var after := entries[name := entry];
    assert after.Keys == entries.Keys + {name};
    assert Deps(after, name) == Elems(entry.deps);
    assert forall v | v != name :: Deps(after, v) == Deps(entries, v);
    if name !in charged && ChargedClosed(after, charged) {
      forall v | v in charged ensures name !in Deps(entries, v) {
        assert Deps(after, v) * after.Keys <= charged;
      }
    }
  }

  /** Texts that can be variable names. */
  predicate IsName(name: string) {
    name != "" && forall k | 0 <= k < |name| :: IsIdent(name[k])
  }

  lemma OneReference(s: string, name: string)
    requires s == PREFIX + name && IsName(name)
    ensures Referenced(s) == {name}
  {
    assert s[..|PREFIX|] == PREFIX && s[|PREFIX|..] == name;
    assert IdentEnd(s, |PREFIX|) == |s| by {
      assert forall k | |PREFIX| <= k < |s| :: s[k] == name[k - |PREFIX|];
    }
    assert OccursAt(s, 0) && NameAt(s, 0) == name;
    var dot := |PREFIX| - 1;
    forall k | 0 <= k < |s| && k != dot ensures s[k] != '.' {
      assert s[k] == if k < |PREFIX| then PREFIX[k] else name[k - |PREFIX|];
    }
    forall i: nat | OccursAt(s, i) ensures i == 0 {
      assert s[i + dot] == s[i..i + |PREFIX|][dot] == '.';
    }
  }

  lemma Pair<T>(a: T, b: T)
    requires a != b
    ensures {a} * {b} == {} && {a, b} - {b} == {a} && {b} * {a} == {} && {b} + {a} == {a, b}
  {
  }

  /** `b` alone is charged while `a`, which it refers to, is not recorded. */
  lemma EarlyClosed(a: string, b: string, early: Entries)
    requires a != b && early.Keys == {b} && Deps(early, b) == {a}
    ensures Closed(early, {}, {b}, {b})
  {
    Pair(a, b);
    assert early.Keys - {} == {b};
  }

  lemma EarlyCharge(a: string, b: string, early: Entries)
    requires a != b && early.Keys == {b} && Deps(early, b) == {a}
    ensures Fresh(early, {}, {b}) == {b}
  {
    EarlyClosed(a, b, early);
    RootReaches(early, {}, {b}, b);
    FreshInside(early, {}, {b}, {b});
  }

  lemma LateClosed(a: string, b: string, late: Entries)
    requires a != b && late.Keys == {a, b} && Deps(late, b) == {a}
    ensures Closed(late, {b}, {b}, {}) && Closed(late, {}, {b}, {a, b}) && !ChargedClosed(late, {b})
  {
    Pair(a, b);
    assert late.Keys - {} == {a, b};
    assert a in Deps(late, b) * (late.Keys - {});
  }

  /** Then `a`, once recorded, is reachable but only through a charged variable. */
  lemma LateRecord(a: string, b: string, late: Entries)
    requires a != b && late.Keys == {a, b} && Deps(late, b) == {a}
    ensures Fresh(late, {b}, {b}) == {} && Reach(late, {b}) == {a, b}
  {
    LateClosed(a, b, late);
    FreshInside(late, {b}, {b}, {});
    RootReaches(late, {}, {b}, b);
    DepReaches(late, {}, {b}, b, a);
    FreshInside(late, {}, {b}, {a, b});
  }

  lemma {:induction false} CostOfOne(entries: Entries, b: string)
    requires b in entries
    ensures SumCost(entries, {b}) == entries[b].cost
  {
    SumCostRemove(entries, {b}, b);
    assert {b} - {b} == {};
  }

  lemma {:induction false} CostOfTwo(entries: Entries, a: string, b: string)
    requires a != b && a in entries && b in entries
    ensures SumCost(entries, {a, b}) == entries[a].cost + entries[b].cost
  {
    Pair(a, b);
    SumCostRemove(entries, {a, b}, b);
    CostOfOne(entries, a);
  }

  lemma {:induction false} EarlyAccount(a: string, b: string, early: Entries, charged: set<string>)
    requires IsName(a) && IsName(b) && a != b
    requires early.Keys == {b} && Deps(early, b) == Referenced(PREFIX + a) && charged == {}
    ensures Fresh(early, charged, Referenced(PREFIX + b)) == {b} && SumCost(early, {b}) == early[b].cost
  {
    OneReference(PREFIX + a, a);
    OneReference(PREFIX + b, b);
    EarlyCharge(a, b, early);
    CostOfOne(early, b);
  }

  lemma {:induction false} LateAccount(a: string, b: string, late: Entries, charged: set<string>)
    requires IsName(a) && IsName(b) && a != b
    requires late.Keys == {a, b} && Deps(late, b) == Referenced(PREFIX + a) && charged == {b}
    ensures Fresh(late, charged, Referenced(PREFIX + b)) == {} && !ChargedClosed(late, charged)
    ensures SumCost(late, Reach(late, Referenced(PREFIX + b))) == late[a].cost + late[b].cost
  {
    OneReference(PREFIX + a, a);
    OneReference(PREFIX + b, b);
    LateClosed(a, b, late);
    LateRecord(a, b, late);
    CostOfTwo(late, a, b);
  }

  /** Recording after charging breaks the accounting: `b` is charged before its
      reference `a` is recorded, and charging `variables.b` again does not pay
      for `a`, although it reaches it. */
  method LateRecordBreaksClosure(a: string, b: string, costOfA: nat, costOfB: nat) returns (costs: VariableCosts, paid: nat)
    requires IsName(a) && IsName(b) && a != b && costOfB <= I64_MAX
    ensures !ChargedClosed(costs.entries, costs.charged)
    ensures paid == costOfB
    ensures SumCost(costs.entries, Reach(costs.entries, Referenced(PREFIX + b))) == costOfA + costOfB
  {
    costs := new VariableCosts();
    costs.Record(b, PREFIX + a, costOfB);
    EarlyAccount(a, b, costs.entries, costs.charged);
    paid := costs.CompositionCost(PREFIX + b);
    costs.Record(a, "", costOfA);
    LateAccount(a, b, costs.entries, costs.charged);
    var again := costs.CompositionCost(PREFIX + b);
    paid := paid + again;
  }
}
