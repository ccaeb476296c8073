/** LimitRange defaulting and checking of a pod. */
module LimitRanges {
  import opened Prelude
  import Ledger

  type Values = map<string, string>

  datatype Resources = Resources(limits: Option<Values>, requests: Option<Values>)

  datatype Container = Container(name: string, resources: Option<Resources>)

  datatype LimitItem = LimitItem(
    kind: string,
    defaults: Option<Values>,
    defaultRequest: Option<Values>,
    min: Option<Values>,
    max: Option<Values>,
    ratio: Option<Values>)

  datatype LimitRange = LimitRange(limits: seq<LimitItem>)

  /** Quantity parsing: millicores for `cpu`, bytes otherwise; `None` is an
      unparsable text. */
  type Parser = (bool, string) -> Option<int>

  /** The limit/request ratio check of one item. */
  type RatioCheck = (Resources, Values) -> Result<bool, string>

  function Amount(parse: Parser, resource: string, text: string): Option<int> {
    parse(resource == "cpu", text)
  }

  /** `a <= b` as amounts of `resource`, both parsable. */
  predicate AtMost(parse: Parser, resource: string, a: string, b: string) {
    var x, y := Amount(parse, resource, a), Amount(parse, resource, b);
    x.Some? && y.Some? && x.value <= y.value
  }

  function Get(m: Option<Values>): Values {
    if m.Some? then m.value else map[]
  }

  /** The limits or the requests of a container, as a map. */
  function ValuesOf(res: Option<Resources>, limits: bool): Values {
    if res.None? then map[] else Get(if limits then res.value.limits else res.value.requests)
  }

  // ------------------------------------------------------------- defaults

  predicate ForContainers(item: LimitItem) {
    item.kind == "Container"
  }

  /** What an item supplies to a container that lacks it. */
  function Supplies(item: LimitItem, limits: bool): Values {
    if !ForContainers(item) then map[]
    else if limits then Get(item.defaults)
    else Get(if item.defaultRequest.Some? then item.defaultRequest else item.defaults)
  }

  function Defaulted(res: Resources, item: LimitItem): Resources {
    var limits := if item.defaults.Some? then Some(item.defaults.value + Get(res.limits)) else res.limits;
    var effective := if item.defaultRequest.Some? then item.defaultRequest else item.defaults;
    var requests := if effective.Some? then Some(effective.value + Get(res.requests)) else res.requests;
    Resources(limits, requests)
  }

  function ApplyItem(res: Option<Resources>, item: LimitItem): Option<Resources> {
    if ForContainers(item) then Some(Defaulted(if res.Some? then res.value else Resources(None, None), item)) else res
  }

  function Applied(res: Option<Resources>, items: seq<LimitItem>): Option<Resources> {
    if items == [] then res else ApplyItem(Applied(res, items[..|items| - 1]), items[|items| - 1])
  }

  /** What a `Container` item supplies: limits from its defaults, requests from
      its default requests and only without any from its defaults. */
  lemma SuppliesMeans(item: LimitItem)
    ensures item.kind != "Container" ==> Supplies(item, true) == Supplies(item, false) == map[]
    ensures item.kind == "Container" ==>
      && (Supplies(item, true) == if item.defaults.Some? then item.defaults.value else map[])
      && (item.defaultRequest.Some? ==> Supplies(item, false) == item.defaultRequest.value)
      && (item.defaultRequest.None? ==> Supplies(item, false) == Supplies(item, true))
  {
  }

  /** An existing value always wins over a supplied one. */
  lemma ApplyItemValues(res: Option<Resources>, item: LimitItem, limits: bool)
    ensures ValuesOf(ApplyItem(res, item), limits) == Supplies(item, limits) + ValuesOf(res, limits)
  {
    assert map[] + ValuesOf(res, limits) == ValuesOf(res, limits);
  }

  /** When a resource gets its value: 0 for an explicit one, `i + 1` for one
      supplied first by item `i`, `|items| + 1` for none. */
  function Stage(res: Option<Resources>, items: seq<LimitItem>, limits: bool, k: string): (s: nat)
    ensures s <= |items| + 1
  {
    if k in ValuesOf(res, limits) then 0
    else if items == [] then 1
    else
      var init := items[..|items| - 1];
      var earlier := Stage(res, init, limits, k);
      if earlier <= |init| then earlier
      else if k in Supplies(items[|items| - 1], limits) then |items| else |items| + 1
  }

  /** The value of a resource: its explicit one, else that of the first item
      that supplies one. */
  lemma {:induction false} FirstSupplierWins(res: Option<Resources>, items: seq<LimitItem>, limits: bool, k: string)
    ensures var s, end := Stage(res, items, limits, k), ValuesOf(Applied(res, items), limits);
            && (k in end <==> s <= |items|)
            && (s == 0 <==> k in ValuesOf(res, limits))
            && (s == 0 ==> end[k] == ValuesOf(res, limits)[k])
            && (0 < s <= |items| ==> k in Supplies(items[s - 1], limits) && end[k] == Supplies(items[s - 1], limits)[k])
            && (forall j | 0 <= j < s - 1 && j < |items| :: k !in Supplies(items[j], limits))
    decreases |items|
  {
    if items != [] {
      var init, last := items[..|items| - 1], items[|items| - 1];
      FirstSupplierWins(res, init, limits, k);
      ApplyItemValues(Applied(res, init), last, limits);
    }
  }

  /** Later items neither change a value nor the stage it came from. */
  lemma {:induction false} StageStable(res: Option<Resources>, items: seq<LimitItem>, limits: bool, k: string, n: nat)
    requires n <= |items|
    ensures k in ValuesOf(Applied(res, items[..n]), limits) <==> Stage(res, items, limits, k) <= n
    ensures k in ValuesOf(Applied(res, items[..n]), limits) ==>
              k in ValuesOf(Applied(res, items), limits) &&
              ValuesOf(Applied(res, items), limits)[k] == ValuesOf(Applied(res, items[..n]), limits)[k]
    decreases |items|
  {
    FirstSupplierWins(res, items, limits, k);
    if n == |items| {
      assert items[..n] == items;
    } else {
      var init, last := items[..|items| - 1], items[|items| - 1];
      assert init[..n] == items[..n];
      StageStable(res, init, limits, k, n);
      FirstSupplierWins(res, init, limits, k);
      ApplyItemValues(Applied(res, init), last, limits);
    }
  }

  // --------------------------------------------------------------- checks

  ghost predicate MinHolds(parse: Parser, res: Option<Resources>, min: Values) {
    forall limits, k | k in min && k in ValuesOf(res, limits) :: AtMost(parse, k, min[k], ValuesOf(res, limits)[k])
  }

  ghost predicate MaxHolds(parse: Parser, res: Option<Resources>, max: Values) {
    forall limits, k | k in max && k in ValuesOf(res, limits) :: AtMost(parse, k, ValuesOf(res, limits)[k], max[k])
  }

  ghost predicate RatioHolds(ratio: RatioCheck, res: Option<Resources>, bound: Option<Values>) {
    bound.None? || (res.Some? && ratio(res.value, bound.value) == Ok(true))
  }

  ghost predicate ItemAccepts(parse: Parser, ratio: RatioCheck, res: Option<Resources>, item: LimitItem) {
    ForContainers(item) ==>
      MinHolds(parse, res, Get(item.min)) && MaxHolds(parse, res, Get(item.max)) && RatioHolds(ratio, res, item.ratio)
  }

  /** Each item checks the container as it is after that item's own defaults. */
  ghost predicate ContainerAccepted(parse: Parser, ratio: RatioCheck, res: Option<Resources>, items: seq<LimitItem>) {
    items == [] ||
    (ContainerAccepted(parse, ratio, res, items[..|items| - 1]) && ItemAccepts(parse, ratio, Applied(res, items), items[|items| - 1]))
  }

  ghost predicate AcceptsAt(parse: Parser, ratio: RatioCheck, res: Option<Resources>, items: seq<LimitItem>, i: nat) {
    i < |items| && ItemAccepts(parse, ratio, Applied(res, items[..i + 1]), items[i])
  }

  lemma {:induction false} AcceptedAtEach(parse: Parser, ratio: RatioCheck, res: Option<Resources>, items: seq<LimitItem>)
    ensures ContainerAccepted(parse, ratio, res, items) <==> forall i: nat | i < |items| :: AcceptsAt(parse, ratio, res, items, i)
    decreases |items|
  {
    if items != [] {
      var init, last := items[..|items| - 1], |items| - 1;
      AcceptedAtEach(parse, ratio, res, init);
      assert items[..last + 1] == items;
      forall i: nat | i < last ensures AcceptsAt(parse, ratio, res, items, i) == AcceptsAt(parse, ratio, res, init, i) {
        assert items[i] == init[i] && init[..i + 1] == items[..i + 1];
      }
      assert AcceptsAt(parse, ratio, res, items, last) == ItemAccepts(parse, ratio, Applied(res, items), items[last]);
    }
  }

  lemma {:induction false} AcceptedPrefix(parse: Parser, ratio: RatioCheck, res: Option<Resources>, items: seq<LimitItem>, n: nat)
    requires n <= |items| && ContainerAccepted(parse, ratio, res, items)
    ensures ContainerAccepted(parse, ratio, res, items[..n])
    decreases |items|
  {
    if n == |items| {
      assert items[..n] == items;
    } else {
      assert items[..|items| - 1][..n] == items[..n];
      AcceptedPrefix(parse, ratio, res, items[..|items| - 1], n);
    }
  }

  /** Item `i`'s bounds on a value of the finished container. */
  ghost predicate Within(parse: Parser, item: LimitItem, k: string, v: string) {
    ForContainers(item) ==>
      && (k in Get(item.min) ==> AtMost(parse, k, Get(item.min)[k], v))
      && (k in Get(item.max) ==> AtMost(parse, k, v, Get(item.max)[k]))
  }

  /** On the finished container: item `i` bounds exactly the values that were
      explicit or supplied by an item up to `i`. */
  ghost predicate BoundsHold(parse: Parser, res: Option<Resources>, items: seq<LimitItem>, i: nat)
    requires i < |items|
  {
    forall limits, k | k in ValuesOf(Applied(res, items), limits) && Stage(res, items, limits, k) <= i + 1 ::
      Within(parse, items[i], k, ValuesOf(Applied(res, items), limits)[k])
  }

  lemma {:induction false} ItemBounds(parse: Parser, ratio: RatioCheck, res: Option<Resources>, items: seq<LimitItem>, i: nat)
    requires i < |items|
    ensures ItemAccepts(parse, ratio, Applied(res, items[..i + 1]), items[i]) <==>
            BoundsHold(parse, res, items, i) &&
            (ForContainers(items[i]) ==> RatioHolds(ratio, Applied(res, items[..i + 1]), items[i].ratio))
  {
    var now, end := Applied(res, items[..i + 1]), Applied(res, items);
    forall limits, k
      ensures k in ValuesOf(now, limits) <==> k in ValuesOf(end, limits) && Stage(res, items, limits, k) <= i + 1
      ensures k in ValuesOf(now, limits) ==> k in ValuesOf(end, limits) && ValuesOf(now, limits)[k] == ValuesOf(end, limits)[k]
    {
      StageStable(res, items, limits, k, i + 1);
      FirstSupplierWins(res, items, limits, k);
    }
  }

  /** A container is accepted exactly when every value of the finished container
      satisfies the bounds of every item from its supplier on (an explicit
      value: of every item), and the ratio checks pass as they were made. */
  lemma {:induction false} AcceptedExactly(parse: Parser, ratio: RatioCheck, res: Option<Resources>, items: seq<LimitItem>)
    ensures ContainerAccepted(parse, ratio, res, items) <==>
            && (forall i: nat | i < |items| :: BoundsHold(parse, res, items, i))
            && (forall i: nat | i < |items| && ForContainers(items[i]) :: RatioHolds(ratio, Applied(res, items[..i + 1]), items[i].ratio))
  {
    AcceptedAtEach(parse, ratio, res, items);
    forall i: nat | i < |items|
      ensures AcceptsAt(parse, ratio, res, items, i) <==>
              BoundsHold(parse, res, items, i) &&
              (ForContainers(items[i]) ==> RatioHolds(ratio, Applied(res, items[..i + 1]), items[i].ratio))
    {
      ItemBounds(parse, ratio, res, items, i);
    }
  }

  /** Earlier items do not see later defaults: a value supplied by the second
      item may exceed the first one's maximum and the pod is still accepted. */
  lemma LaterDefaultsEscape(parse: Parser, ratio: RatioCheck)
    requires parse(true, "1") == Some(1) && parse(true, "2") == Some(2)
    ensures var capped := LimitItem("Container", None, None, None, Some(map["cpu" := "1"]), None);
            var supplier := LimitItem("Container", Some(map["cpu" := "2"]), None, None, None, None);
            && ContainerAccepted(parse, ratio, None, [capped, supplier])
            && !MaxHolds(parse, Applied(None, [capped, supplier]), map["cpu" := "1"])
  {
    var capped := LimitItem("Container", None, None, None, Some(map["cpu" := "1"]), None);
    var supplier := LimitItem("Container", Some(map["cpu" := "2"]), None, None, None, None);
    var items := [capped, supplier];
    assert items[..1] == [capped] && [capped][..0] == [];
    assert Applied(None, [capped]) == Some(Resources(None, None));
    assert ItemAccepts(parse, ratio, Applied(None, [capped]), capped);
    assert ContainerAccepted(parse, ratio, None, [capped][..0]);
    assert ContainerAccepted(parse, ratio, None, [capped]);
    var end := Applied(None, items);
    assert end == Some(Resources(Some(map["cpu" := "2"]), Some(map["cpu" := "2"]))) by {
      var none: Values := map[];
      assert map["cpu" := "2"] + none == map["cpu" := "2"];
    }
    assert ItemAccepts(parse, ratio, end, supplier);
    assert "cpu" in ValuesOf(end, true);
  }

  // ------------------------------------------------------------ pod sums

  /** The sum of a resource over the containers that have it; `None` if one of
      the texts is unparsable. */
  function SumOf(parse: Parser, containers: seq<Container>, limits: bool, k: string): Option<int> {
    if containers == [] then Some(0)
    else
      var before := SumOf(parse, containers[..|containers| - 1], limits, k);
      var values := ValuesOf(containers[|containers| - 1].resources, limits);
      if before.None? || k !in values then before
      else
        var x := Amount(parse, k, values[k]);
        if x.None? then None else Some(before.value + x.value)
  }

  /** The amount of one container: nothing, if it does not have the resource. */
  function Share(parse: Parser, container: Container, limits: bool, k: string): Option<int> {
    var values := ValuesOf(container.resources, limits);
    if k in values then parse(k == "cpu", values[k]) else Some(0)
  }

  /** There is a sum exactly when every container's amount parses; one container
      gives its own amount, two lists the sum of theirs. */
  lemma {:induction false} SumParses(parse: Parser, containers: seq<Container>, limits: bool, k: string)
    ensures SumOf(parse, containers, limits, k).Some? <==>
            forall i | 0 <= i < |containers| && k in ValuesOf(containers[i].resources, limits) ::
              parse(k == "cpu", ValuesOf(containers[i].resources, limits)[k]).Some?
  {
    if containers != [] {
      var init := containers[..|containers| - 1];
      SumParses(parse, init, limits, k);
      assert forall i | 0 <= i < |init| :: init[i] == containers[i];
    }
  }

  lemma {:induction false} SumOfOne(parse: Parser, container: Container, limits: bool, k: string)
    ensures SumOf(parse, [], limits, k) == Some(0)
    ensures SumOf(parse, [container], limits, k) == Share(parse, container, limits, k)
  {
    assert [container][..0] == [];
  }

  function Plus(x: Option<int>, y: Option<int>): Option<int> {
    if x.Some? && y.Some? then Some(x.value + y.value) else None
  }

  lemma {:induction false} SumOfTwo(parse: Parser, a: seq<Container>, b: seq<Container>, limits: bool, k: string)
    ensures SumOf(parse, a + b, limits, k) == Plus(SumOf(parse, a, limits, k), SumOf(parse, b, limits, k))
    decreases |b|
  {
    if b == [] {
      assert a + b == a;
    } else {
      var init := b[..|b| - 1];
      assert (a + b)[..|a + b| - 1] == a + init;
      SumOfTwo(parse, a, init, limits, k);
    }
  }

  lemma {:induction false} SumMiddle(parse: Parser, left: seq<Container>, c: Container, right: seq<Container>, limits: bool, k: string)
    ensures SumOf(parse, left + ([c] + right), limits, k) == Plus(SumOf(parse, left + right, limits, k), Share(parse, c, limits, k))
  {
    SumOfOne(parse, c, limits, k);
    SumOfTwo(parse, [c], right, limits, k);
    SumOfTwo(parse, left, [c] + right, limits, k);
    SumOfTwo(parse, left, right, limits, k);
  }

  lemma {:induction false} SumWithout(parse: Parser, s: seq<Container>, i: nat, limits: bool, k: string)
    requires i < |s|
    ensures SumOf(parse, s, limits, k) == Plus(SumOf(parse, s[..i] + s[i + 1..], limits, k), Share(parse, s[i], limits, k))
  {
    assert s == s[..i] + ([s[i]] + s[i + 1..]);
    SumMiddle(parse, s[..i], s[i], s[i + 1..], limits, k);
  }

  /** The sum does not depend on the order of the containers. */
  lemma {:induction false} SumOrderFree(parse: Parser, a: seq<Container>, b: seq<Container>, limits: bool, k: string)
    requires multiset(a) == multiset(b)
    ensures SumOf(parse, a, limits, k) == SumOf(parse, b, limits, k)
    decreases |a|
  {
    if a == [] {
      assert |b| == |multiset(b)| == 0;
    } else {
      var i := Ledger.Placed(a, b);
      SumOrderFree(parse, a[..0] + a[1..], b[..i] + b[i + 1..], limits, k);
      SumWithout(parse, a, 0, limits, k);
      SumWithout(parse, b, i, limits, k);
    }
  }

  ghost predicate SumAtMost(parse: Parser, containers: seq<Container>, limits: bool, k: string, bound: string) {
    var sum, b := SumOf(parse, containers, limits, k), Amount(parse, k, bound);
    sum.Some? && b.Some? && sum.value <= b.value
  }

  ghost predicate SumAtLeast(parse: Parser, containers: seq<Container>, k: string, bound: string) {
    var sum, b := SumOf(parse, containers, false, k), Amount(parse, k, bound);
    sum.Some? && b.Some? && sum.value >= b.value
  }

  /** A `Pod` item bounds the sums: maxima both limits and requests, minima the
      requests. */
  ghost predicate PodItemHolds(parse: Parser, containers: seq<Container>, item: LimitItem) {
    item.kind == "Pod" ==>
      && (forall k, limits | k in Get(item.max) :: SumAtMost(parse, containers, limits, k, Get(item.max)[k]))
      && (forall k | k in Get(item.min) :: SumAtLeast(parse, containers, k, Get(item.min)[k]))
  }

  /** `x` and `b` are amounts with `b` a lower, or an upper, bound of `x`. */
  predicate Bounded(x: Option<int>, b: Option<int>, lower: bool) {
    x.Some? && b.Some? && if lower then x.value >= b.value else x.value <= b.value
  }

  /** The bounds of a `Pod` item, in amounts. */
  lemma {:induction false} PodItemMeans(parse: Parser, containers: seq<Container>, item: LimitItem)
    requires item.kind == "Pod"
    ensures PodItemHolds(parse, containers, item) <==>
      && (forall k, limits | k in Get(item.max) ::
            Bounded(SumOf(parse, containers, limits, k), parse(k == "cpu", Get(item.max)[k]), false))
      && (forall k | k in Get(item.min) ::
            Bounded(SumOf(parse, containers, false, k), parse(k == "cpu", Get(item.min)[k]), true))
  {
    var max, min := Get(item.max), Get(item.min);
    if PodItemHolds(parse, containers, item) {
      forall k, limits | k in max ensures Bounded(SumOf(parse, containers, limits, k), parse(k == "cpu", max[k]), false) {
        assert SumAtMost(parse, containers, limits, k, max[k]);
      }
      forall k | k in min ensures Bounded(SumOf(parse, containers, false, k), parse(k == "cpu", min[k]), true) {
        assert SumAtLeast(parse, containers, k, min[k]);
      }
    } else if k, limits :| k in max && !SumAtMost(parse, containers, limits, k, max[k]) {
      assert !Bounded(SumOf(parse, containers, limits, k), parse(k == "cpu", max[k]), false);
    } else {
      var k :| k in min && !SumAtLeast(parse, containers, k, min[k]);
      assert !Bounded(SumOf(parse, containers, false, k), parse(k == "cpu", min[k]), true);
    }
  }

  // ------------------------------------------------------- the algorithm

  /** Both texts parse and the value is on the wrong side of the bound. */
  predicate Breaks(parse: Parser, k: string, value: string, bound: string, lower: bool) {
    var x, b := Amount(parse, k, value), Amount(parse, k, bound);
    x.Some? && b.Some? && if lower then x.value < b.value else x.value > b.value
  }

  /** Some bounded value breaks its bound or, as an error, cannot be compared. */
  ghost predicate Bad(parse: Parser, values: Values, bounds: Values, lower: bool, err: bool) {
    exists k :: k in bounds && k in values &&
      if err then Amount(parse, k, values[k]).None? || Amount(parse, k, bounds[k]).None?
      else Breaks(parse, k, values[k], bounds[k], lower)
  }

  /** Why an item stops a container: a broken bound or ratio, or, as an error, a
      text that does not parse. */
  ghost predicate ItemBad(parse: Parser, ratio: RatioCheck, res: Resources, item: LimitItem, err: bool) {
    && ForContainers(item)
    && ((exists limits :: Bad(parse, ValuesOf(Some(res), limits), Get(item.min), true, err))
       || (exists limits :: Bad(parse, ValuesOf(Some(res), limits), Get(item.max), false, err))
       || (item.ratio.Some? && if err then ratio(res, item.ratio.value).Err? else ratio(res, item.ratio.value).Ok? && !ratio(res, item.ratio.value).value))
  }

  ghost predicate SumBad(parse: Parser, containers: seq<Container>, limits: bool, k: string, bound: string, lower: bool, err: bool) {
    var sum, b := SumOf(parse, containers, limits, k), Amount(parse, k, bound);
    if err then sum.None? || b.None?
    else sum.Some? && b.Some? && if lower then sum.value < b.value else sum.value > b.value
  }

  ghost predicate PodItemBad(parse: Parser, containers: seq<Container>, item: LimitItem, err: bool) {
    && item.kind == "Pod"
    && ((exists k, limits :: k in Get(item.max) && SumBad(parse, containers, limits, k, Get(item.max)[k], false, err))
       || (exists k :: k in Get(item.min) && SumBad(parse, containers, false, k, Get(item.min)[k], true, err)))
  }

  /** One loop of `validate_min_resources` or `validate_max_resources`: the
      bounded values against their bounds, in any order. */
  method CheckValues(parse: Parser, values: Values, bounds: Values, lower: bool) returns (r: Result<bool, string>)
    ensures r == Ok(true) <==>
              forall k | k in bounds && k in values ::
                if lower then AtMost(parse, k, bounds[k], values[k]) else AtMost(parse, k, values[k], bounds[k])
    ensures r != Ok(true) ==> Bad(parse, values, bounds, lower, r.Err?)
  {
    var keys := bounds.Keys;
    while keys != {}
      invariant keys <= bounds.Keys
      invariant forall k | k in bounds && k in values && k !in keys ::
                  if lower then AtMost(parse, k, bounds[k], values[k]) else AtMost(parse, k, values[k], bounds[k])
    {
      var k :| k in keys;
      keys := keys - {k};
      if k in values {
        var value, bound := Amount(parse, k, values[k]), Amount(parse, k, bounds[k]);
        if value.None? || bound.None? {
          return Err("unable to parse quantity");
        }
        if (lower && value.value < bound.value) || (!lower && value.value > bound.value) {
          return Ok(false);
        }
      }
    }
    return Ok(true);
  }

  method ValidateMinResources(parse: Parser, res: Resources, min: Values) returns (r: Result<bool, string>)
    ensures r == Ok(true) <==> MinHolds(parse, Some(res), min)
    ensures r == Ok(true) <==> forall limits, k | k in min && k in ValuesOf(Some(res), limits) ::
              var x, b := parse(k == "cpu", ValuesOf(Some(res), limits)[k]), parse(k == "cpu", min[k]);
              x.Some? && b.Some? && x.value >= b.value
    ensures r != Ok(true) ==> exists limits :: Bad(parse, ValuesOf(Some(res), limits), min, true, r.Err?)
  {
    r := CheckValues(parse, ValuesOf(Some(res), false), min, true);
    if r == Ok(true) {
      r := CheckValues(parse, ValuesOf(Some(res), true), min, true);
    }
  }

  method ValidateMaxResources(parse: Parser, res: Resources, max: Values) returns (r: Result<bool, string>)
    ensures r == Ok(true) <==> MaxHolds(parse, Some(res), max)
    ensures r == Ok(true) <==> forall limits, k | k in max && k in ValuesOf(Some(res), limits) ::
              var x, b := parse(k == "cpu", ValuesOf(Some(res), limits)[k]), parse(k == "cpu", max[k]);
              x.Some? && b.Some? && x.value <= b.value
    ensures r != Ok(true) ==> exists limits :: Bad(parse, ValuesOf(Some(res), limits), max, false, r.Err?)
  {
    r := CheckValues(parse, ValuesOf(Some(res), true), max, false);
    if r == Ok(true) {
      r := CheckValues(parse, ValuesOf(Some(res), false), max, false);
    }
  }

  /** The checks of one `Container` item. */
  method CheckItem(parse: Parser, ratio: RatioCheck, res: Resources, item: LimitItem) returns (r: Result<bool, string>)
    requires ForContainers(item)
    ensures r == Ok(true) <==> ItemAccepts(parse, ratio, Some(res), item)
    ensures r != Ok(true) ==> ItemBad(parse, ratio, res, item, r.Err?)
  {
    if item.min.Some? {
      r := ValidateMinResources(parse, res, item.min.value);
      if r != Ok(true) {
        return;
      }
    }
    if item.max.Some? {
      r := ValidateMaxResources(parse, res, item.max.value);
      if r != Ok(true) {
        return;
      }
    }
    r := if item.ratio.Some? then ratio(res, item.ratio.value) else Ok(true);
    assert r.Ok? && r.value ==> r == Ok(true);
  }

  /** All items of all ranges, in order. */
  function Flat(ranges: seq<LimitRange>): seq<LimitItem> {
    if ranges == [] then [] else Flat(ranges[..|ranges| - 1]) + ranges[|ranges| - 1].limits
  }

  /** Where the items of one range sit in the flat list. */
  lemma {:induction false} FlatAt(ranges: seq<LimitRange>, i: nat)
    requires i < |ranges|
    ensures var start := |Flat(ranges[..i])|;
            && |Flat(ranges[..i + 1])| == start + |ranges[i].limits| <= |Flat(ranges)|
            && Flat(ranges)[start..start + |ranges[i].limits|] == ranges[i].limits
    decreases |ranges|
  {
    assert ranges[..i + 1][..i] == ranges[..i];
    if i == |ranges| - 1 {
      assert ranges[..i + 1] == ranges;
    } else {
      assert ranges[..|ranges| - 1][..i] == ranges[..i] && ranges[..|ranges| - 1][..i + 1] == ranges[..i + 1];
      FlatAt(ranges[..|ranges| - 1], i);
    }
  }

  /** Defaulting and checking has got past the first `n` items. */
  ghost predicate Passed(parse: Parser, ratio: RatioCheck, res0: Option<Resources>, items: seq<LimitItem>, n: nat, res: Option<Resources>) {
    n <= |items| && res == Applied(res0, items[..n]) && ContainerAccepted(parse, ratio, res0, items[..n])
  }

  lemma {:induction false} PassNext(parse: Parser, ratio: RatioCheck, res0: Option<Resources>, items: seq<LimitItem>, n: nat, res: Option<Resources>)
    requires n < |items| && Passed(parse, ratio, res0, items, n, res)
    ensures ApplyItem(res, items[n]) == Applied(res0, items[..n + 1])
    ensures ItemAccepts(parse, ratio, ApplyItem(res, items[n]), items[n]) ==>
              Passed(parse, ratio, res0, items, n + 1, ApplyItem(res, items[n]))
    ensures !ItemAccepts(parse, ratio, ApplyItem(res, items[n]), items[n]) ==> !ContainerAccepted(parse, ratio, res0, items)
  {
    assert items[..n + 1][..n] == items[..n];
    if ContainerAccepted(parse, ratio, res0, items) {
      AcceptedPrefix(parse, ratio, res0, items, n + 1);
    }
  }

  /** One item on one container: its defaults, then its checks. */
  method ApplyOne(parse: Parser, ratio: RatioCheck, res: Option<Resources>, item: LimitItem)
    returns (r: Result<bool, string>, out: Option<Resources>)
    ensures out == ApplyItem(res, item)
    ensures r == Ok(true) <==> ItemAccepts(parse, ratio, out, item)
    ensures r != Ok(true) ==> out.Some? && ItemBad(parse, ratio, out.value, item, r.Err?)
  {
    if !ForContainers(item) {
      return Ok(true), res;
    }
    var now := Defaulted(if res.Some? then res.value else Resources(None, None), item);
    r := CheckItem(parse, ratio, now, item);
    out := Some(now);
  }

  /** Item `n - 1` stopped a container that had got past the items before it. */
  ghost predicate StoppedAt(parse: Parser, ratio: RatioCheck, res0: Option<Resources>, items: seq<LimitItem>, n: nat, err: bool) {
    && 0 < n <= |items| && ContainerAccepted(parse, ratio, res0, items[..n - 1])
    && var res := Applied(res0, items[..n]); res.Some? && ItemBad(parse, ratio, res.value, items[n - 1], err)
  }

  /** The loop over the items of one range, from item `start` of the flat list on. */
  method ApplyRange(parse: Parser, ratio: RatioCheck, input: Option<Resources>, limits: seq<LimitItem>,
                    ghost res0: Option<Resources>, ghost items: seq<LimitItem>, ghost start: nat)
    returns (r: Result<bool, string>, res: Option<Resources>, ghost n: nat)
    requires start + |limits| <= |items| && items[start..start + |limits|] == limits
    requires Passed(parse, ratio, res0, items, start, input)
    ensures n <= |items| && res == Applied(res0, items[..n])
    ensures if r == Ok(true) then n == start + |limits| && Passed(parse, ratio, res0, items, n, res)
            else !ContainerAccepted(parse, ratio, res0, items) && StoppedAt(parse, ratio, res0, items, n, r.Err?)
  {
    res, n := input, start;
    var j := 0;
    while j < |limits|
      invariant 0 <= j <= |limits| && n == start + j
      invariant Passed(parse, ratio, res0, items, n, res)
    {
      assert items[n] == items[start..start + |limits|][j];
      PassNext(parse, ratio, res0, items, n, res);
      r, res := ApplyOne(parse, ratio, res, limits[j]);
      n := n + 1;
      if r != Ok(true) {
        return;
      }
      j := j + 1;
    }
    r := Ok(true);
  }

  /** The loop over the ranges for one container. */
  method ApplyToContainer(parse: Parser, ratio: RatioCheck, container: Container, ranges: seq<LimitRange>)
    returns (r: Result<bool, string>, out: Container, ghost n: nat)
    ensures n <= |Flat(ranges)| && out == container.(resources := Applied(container.resources, Flat(ranges)[..n]))
    ensures r == Ok(true) <==> ContainerAccepted(parse, ratio, container.resources, Flat(ranges))
    ensures if r == Ok(true) then n == |Flat(ranges)|
            else StoppedAt(parse, ratio, container.resources, Flat(ranges), n, r.Err?)
  {
    ghost var items, res0 := Flat(ranges), container.resources;
    var res := container.resources;
    var i := 0;
    n := 0;
    while i < |ranges|
      invariant 0 <= i <= |ranges| && n == |Flat(ranges[..i])|
      invariant Passed(parse, ratio, res0, items, n, res)
    {
      FlatAt(ranges, i);
      r, res, n := ApplyRange(parse, ratio, res, ranges[i].limits, res0, items, n);
      if r != Ok(true) {
        out := container.(resources := res);
        return;
      }
      i := i + 1;
    }
    assert ranges[..i] == ranges && items[..n] == items;
    r, out := Ok(true), container.(resources := res);
  }

  /** `sum_across` */
  method SumAcross(parse: Parser, containers: seq<Container>, limits: bool, k: string) returns (sum: Option<int>)
    ensures sum == SumOf(parse, containers, limits, k)
  {
    var total := 0;
    var i := 0;
    while i < |containers|
      invariant 0 <= i <= |containers| && SumOf(parse, containers[..i], limits, k) == Some(total)
    {
      assert containers[..i + 1][..i] == containers[..i];
      var values := ValuesOf(containers[i].resources, limits);
      if k in values {
        match Amount(parse, k, values[k]) {
          case None =>
            SumUnparsable(parse, containers, limits, k, i + 1);
            return None;
          case Some(x) => total := total + x;
        }
      }
      i := i + 1;
    }
    assert containers[..i] == containers;
    return Some(total);
  }

  lemma {:induction false} SumUnparsable(parse: Parser, containers: seq<Container>, limits: bool, k: string, n: nat)
    requires n <= |containers| && SumOf(parse, containers[..n], limits, k).None?
    ensures SumOf(parse, containers, limits, k).None?
    decreases |containers|
  {
    if n == |containers| {
      assert containers[..n] == containers;
    } else {
      assert containers[..|containers| - 1][..n] == containers[..n];
      SumUnparsable(parse, containers[..|containers| - 1], limits, k, n);
    }
  }

  method CheckPodItem(parse: Parser, containers: seq<Container>, item: LimitItem) returns (r: Result<bool, string>)
    requires item.kind == "Pod"
    ensures r == Ok(true) <==> PodItemHolds(parse, containers, item)
    ensures r != Ok(true) ==> PodItemBad(parse, containers, item, r.Err?)
  {
    var max, min := Get(item.max), Get(item.min);
    var keys := max.Keys;
    while keys != {}
      invariant keys <= max.Keys
      invariant forall k, limits | k in max && k !in keys :: SumAtMost(parse, containers, limits, k, max[k])
    {
      var k :| k in keys;
      keys := keys - {k};
      var requests := SumAcross(parse, containers, false, k);
      var limits := SumAcross(parse, containers, true, k);
      var bound := Amount(parse, k, max[k]);
      if requests.None? || bound.None? {
        assert SumBad(parse, containers, false, k, max[k], false, true) && !SumAtMost(parse, containers, false, k, max[k]);
        return Err("unable to parse quantity");
      }
      if requests.value > bound.value {
        assert SumBad(parse, containers, false, k, max[k], false, false) && !SumAtMost(parse, containers, false, k, max[k]);
        return Ok(false);
      }
      if limits.None? {
        assert SumBad(parse, containers, true, k, max[k], false, true) && !SumAtMost(parse, containers, true, k, max[k]);
        return Err("unable to parse quantity");
      }
      if limits.value > bound.value {
        assert SumBad(parse, containers, true, k, max[k], false, false) && !SumAtMost(parse, containers, true, k, max[k]);
        return Ok(false);
      }
    }
    keys := min.Keys;
    while keys != {}
      invariant keys <= min.Keys
      invariant forall k | k in min && k !in keys :: SumAtLeast(parse, containers, k, min[k])
    {
      var k :| k in keys;
      keys := keys - {k};
      var requests := SumAcross(parse, containers, false, k);
      var bound := Amount(parse, k, min[k]);
      if requests.None? || bound.None? {
        assert SumBad(parse, containers, false, k, min[k], true, true) && !SumAtLeast(parse, containers, k, min[k]);
        return Err("unable to parse quantity");
      }
      if requests.value < bound.value {
        assert SumBad(parse, containers, false, k, min[k], true, false) && !SumAtLeast(parse, containers, k, min[k]);
        return Ok(false);
      }
    }
    return Ok(true);
  }

  /** The pod-level loops. */
  method CheckPod(parse: Parser, containers: seq<Container>, ranges: seq<LimitRange>) returns (r: Result<bool, string>)
    ensures r == Ok(true) <==> forall i | 0 <= i < |Flat(ranges)| :: PodItemHolds(parse, containers, Flat(ranges)[i])
    ensures r != Ok(true) ==> exists i :: 0 <= i < |Flat(ranges)| && PodItemBad(parse, containers, Flat(ranges)[i], r.Err?)
  {
    ghost var items := Flat(ranges);
    ghost var n := 0;
    var i := 0;
    while i < |ranges|
      invariant 0 <= i <= |ranges| && n == |Flat(ranges[..i])| && n <= |items|
      invariant forall m | 0 <= m < n :: PodItemHolds(parse, containers, items[m])
    {
      FlatAt(ranges, i);
      var limits := ranges[i].limits;
      ghost var start := n;
      var j := 0;
      while j < |limits|
        invariant 0 <= j <= |limits| && n == start + j
        invariant forall m | 0 <= m < n :: PodItemHolds(parse, containers, items[m])
      {
        assert items[n] == items[start..start + |limits|][j];
        if limits[j].kind == "Pod" {
          r := CheckPodItem(parse, containers, limits[j]);
          if r != Ok(true) {
            return;
          }
        }
        n := n + 1;
        j := j + 1;
      }
      i := i + 1;
    }
    assert ranges[..i] == ranges;
    r := Ok(true);
  }

  class Pod {
    var spec: Option<seq<Container>>

    constructor (spec: Option<seq<Container>>)
      ensures this.spec == spec
    {
      this.spec := spec;
    }
  }

  /** A container after all the items. */
  function Finished(container: Container, ranges: seq<LimitRange>): Container {
    container.(resources := Applied(container.resources, Flat(ranges)))
  }

  function FinishedAll(containers: seq<Container>, ranges: seq<LimitRange>): seq<Container> {
    seq(|containers|, i requires 0 <= i < |containers| => Finished(containers[i], ranges))
  }

  ghost predicate PodAccepted(parse: Parser, ratio: RatioCheck, containers: seq<Container>, ranges: seq<LimitRange>) {
    && (forall i | 0 <= i < |containers| :: ContainerAccepted(parse, ratio, containers[i].resources, Flat(ranges)))
    && (forall i | 0 <= i < |Flat(ranges)| :: PodItemHolds(parse, FinishedAll(containers, ranges), Flat(ranges)[i]))
  }

  /** Why a pod is refused or, as an error, cannot be decided: an item stops one
      of its containers, or a `Pod` item the sums of all finished ones. */
  ghost predicate PodStopped(parse: Parser, ratio: RatioCheck, containers: seq<Container>, ranges: seq<LimitRange>, err: bool) {
    || (exists i, n: nat :: 0 <= i < |containers| && StoppedAt(parse, ratio, containers[i].resources, Flat(ranges), n, err))
    || (exists i :: 0 <= i < |Flat(ranges)| && PodItemBad(parse, FinishedAll(containers, ranges), Flat(ranges)[i], err))
  }

  /** `apply_limit_range_with`: success means every container was accepted and
      has all its defaults, and the sums of the finished pod satisfy every
      `Pod` item; a refusal means a broken bound, an error a text that does not
      parse; whatever the result, a container only ever gains the defaults of a
      prefix of the items. */
  method ApplyLimitRangeWith(parse: Parser, ratio: RatioCheck, pod: Pod, ranges: seq<LimitRange>) returns (r: Result<bool, string>)
    modifies pod
    ensures pod.spec.Some? <==> old(pod.spec).Some?
    ensures pod.spec.None? ==> r == Ok(true)
    ensures pod.spec.Some? ==>
              && (r == Ok(true) <==> PodAccepted(parse, ratio, old(pod.spec).value, ranges))
              && (r == Ok(true) ==> pod.spec.value == FinishedAll(old(pod.spec).value, ranges))
              && (r != Ok(true) ==> PodStopped(parse, ratio, old(pod.spec).value, ranges, r.Err?))
              && |pod.spec.value| == |old(pod.spec).value|
              && forall i | 0 <= i < |pod.spec.value| :: PartlyApplied(old(pod.spec).value[i], ranges, pod.spec.value[i])
  {
    if pod.spec.None? {
      return Ok(true);
    }
    ghost var input := pod.spec.value;
    var containers := pod.spec.value;
    var c := 0;
    forall i | 0 <= i < |input| ensures PartlyApplied(input[i], ranges, input[i]) {
      assert Flat(ranges)[..0] == [];
    }
    while c < |containers|
      invariant 0 <= c <= |containers| == |input| && pod.spec == Some(containers)
      invariant forall i | 0 <= i < c :: ContainerAccepted(parse, ratio, input[i].resources, Flat(ranges)) && containers[i] == Finished(input[i], ranges)
      invariant forall i | c <= i < |input| :: containers[i] == input[i]
      invariant forall i | 0 <= i < |input| :: PartlyApplied(input[i], ranges, containers[i])
    {
      var updated;
      ghost var n;
      r, updated, n := ApplyToContainer(parse, ratio, containers[c], ranges);
      containers := containers[c := updated];
      pod.spec := Some(containers);
      assert Flat(ranges)[..|Flat(ranges)|] == Flat(ranges);
      if r != Ok(true) {
        return;
      }
      c := c + 1;
    }
    assert containers == FinishedAll(input, ranges);
    r := CheckPod(parse, containers, ranges);
  }

  ghost predicate PartlyApplied(before: Container, ranges: seq<LimitRange>, after: Container) {
    exists n :: 0 <= n <= |Flat(ranges)| && after == before.(resources := Applied(before.resources, Flat(ranges)[..n]))
  }
}
