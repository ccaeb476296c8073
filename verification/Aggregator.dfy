/** Grouping and ordering of APIServices, and the two discovery documents built
    from it. */
module Aggregator {
  import opened Prelude
  import opened StableSort
  import opened KubeVersion
  import opened Grouping

  datatype ApiService = ApiService(name: string, group: string, version: string, groupPriority: int, versionPriority: int)

  /** `ByGroupPriorityMinimum`: the higher priority first, then the name. */
  predicate PriorityLe(a: ApiService, b: ApiService) {
    a.groupPriority > b.groupPriority || (a.groupPriority == b.groupPriority && LexCompare(a.name, b.name) <= 0)
  }

  /** `by_version_priority`: the higher version priority first, then the higher
      version. */
  predicate VersionLe(a: ApiService, b: ApiService) {
    if a.versionPriority != b.versionPriority then a.versionPriority > b.versionPriority
    else Compare(a.version, b.version) >= 0
  }

  lemma OrdersAreTotal()
    ensures TotalPreorder(PriorityLe) && TotalPreorder(VersionLe)
  {
    forall a: ApiService, b: ApiService ensures (PriorityLe(a, b) || PriorityLe(b, a)) && (VersionLe(a, b) || VersionLe(b, a)) {
      LexFlips(a.name, b.name);
      CompareIsPreorder(a.version, b.version, b.version);
    }
    forall a: ApiService, b: ApiService, c: ApiService | PriorityLe(a, b) && PriorityLe(b, c) ensures PriorityLe(a, c) {
      if LexCompare(a.name, b.name) <= 0 && LexCompare(b.name, c.name) <= 0 {
        LexTransitive(a.name, b.name, c.name);
      }
    }
    forall a: ApiService, b: ApiService, c: ApiService | VersionLe(a, b) && VersionLe(b, c) ensures VersionLe(a, c) {
      CompareIsPreorder(a.version, b.version, c.version);
    }
  }

  function GroupName(a: ApiService): string { a.group }

  /** The APIServices of one group, in list order. */
  function InGroup(group: string, s: seq<ApiService>): seq<ApiService> {
    Members(GroupName, group, s)
  }

  /** What `sorted_by_group_and_version` returns. */
  function SortedGroups(servers: seq<ApiService>): seq<seq<ApiService>> {
    Grouped(GroupName, VersionLe, Sort(PriorityLe, servers))
  }

  /** Find the list of a group by its first member. */
  method FindGroup(ret: seq<seq<ApiService>>, group: string) returns (k: nat)
    requires forall j | 0 <= j < |ret| :: ret[j] != []
    ensures Finds(GroupName, ret, group, k)
  {
    k := 0;
    while k < |ret|
      invariant 0 <= k <= |ret|
      invariant forall j | 0 <= j < k :: ret[j] != [] && GroupName(ret[j][0]) != group
    {
      if ret[k][0].group == group {
        return;
      }
      k := k + 1;
    }
  }

  method SortedByGroupAndVersion(servers: seq<ApiService>) returns (ret: seq<seq<ApiService>>)
    ensures ret == SortedGroups(servers)
  {
    OrdersAreTotal();
    var byPriority := Sort(PriorityLe, servers);
    ret := [];
    var i := 0;
    while i < |byPriority|
      invariant 0 <= i <= |byPriority|
      invariant ret == Grouped(GroupName, VersionLe, byPriority[..i])
    {
      ghost var before := byPriority[..i];
      var curr := byPriority[i];
      assert byPriority[..i + 1] == before + [curr];
      forall j: nat | j < |ret| ensures ret[j] != [] {
        GroupHolds(GroupName, VersionLe, before, j);
      }
      var k := FindGroup(ret, curr.group);
      FoundPlace(GroupName, VersionLe, before, curr.group, k);
      if k < |ret| {
        GroupedJoins(GroupName, VersionLe, before, curr);
        ret := ret[k := Sort(VersionLe, ret[k] + [curr])];
      } else {
        GroupedStarts(GroupName, VersionLe, before, curr);
        ret := ret + [[curr]];
      }
      i := i + 1;
    }
    assert byPriority[..i] == byPriority;
  }

  /** The result is a permutation of the input, split into one list per group. */
  lemma GroupsPartition(servers: seq<ApiService>)
    ensures var r := SortedGroups(servers);
            && Union(r) == multiset(servers)
            && (forall k | 0 <= k < |r| :: r[k] != [])
            && (forall k, x, y | 0 <= k < |r| && x in r[k] && y in r[k] :: x.group == y.group)
            && (forall k, l, x, y | 0 <= k < l < |r| && x in r[k] && y in r[l] :: x.group != y.group)
  {
    OrdersAreTotal();
    var s := Sort(PriorityLe, servers);
    SortSorts(PriorityLe, servers);
    GroupedPermutes(GroupName, VersionLe, s);
    var r, leaders := SortedGroups(servers), Leaders(GroupName, s);
    forall k: nat | k < |r| ensures r[k] != [] && forall x: ApiService | x in r[k] :: x.group == leaders[k].group {
      GroupHolds(GroupName, VersionLe, s, k);
    }
    forall k: nat, l: nat | k < l < |r| ensures leaders[k].group != leaders[l].group {
      LeadersDiffer(GroupName, s, k, l);
    }
  }

  /** Each list is sorted: the higher version priority first, then the higher
      version. */
  lemma GroupSorted(servers: seq<ApiService>, k: nat)
    requires k < |SortedGroups(servers)|
    ensures Sorted(VersionLe, SortedGroups(servers)[k])
    ensures var list := SortedGroups(servers)[k];
            forall i, j | 0 <= i < j < |list| ::
              && list[i].versionPriority >= list[j].versionPriority
              && (list[i].versionPriority == list[j].versionPriority ==> Compare(list[i].version, list[j].version) >= 0)
  {
    OrdersAreTotal();
    var s := Sort(PriorityLe, servers);
    SortSorts(VersionLe, Members(GroupName, GroupName(Leaders(GroupName, s)[k]), s));
  }

  /** The lists are in the order of their groups' best members: the higher group
      priority first, then the alphabetically first name. */
  lemma GroupsOrdered(servers: seq<ApiService>, k: nat, l: nat)
    requires k < l < |SortedGroups(servers)|
    ensures BestBefore(PriorityLe, SortedGroups(servers)[k], SortedGroups(servers)[l])
    ensures exists x :: x in SortedGroups(servers)[k] && forall y | y in SortedGroups(servers)[l] ::
              x.groupPriority > y.groupPriority || (x.groupPriority == y.groupPriority && !AlphaBefore(y.name, x.name))
  {
    OrdersAreTotal();
    SortSorts(PriorityLe, servers);
    GroupsRanked(GroupName, VersionLe, PriorityLe, Sort(PriorityLe, servers), k, l);
    var x :| x in SortedGroups(servers)[k] && forall y | y in SortedGroups(servers)[l] :: PriorityLe(x, y);
    forall y | y in SortedGroups(servers)[l]
      ensures x.groupPriority > y.groupPriority || (x.groupPriority == y.groupPriority && !AlphaBefore(y.name, x.name))
    {
      LexMeans(y.name, x.name);
      LexFlips(x.name, y.name);
    }
  }

  // ------------------------------------------------------------ discovery

  datatype GroupVersion = GroupVersion(groupVersion: string, version: string)

  datatype ApiGroup = ApiGroup(name: string, versions: seq<GroupVersion>, preferred: GroupVersion)

  function VersionOf(a: ApiService): GroupVersion {
    GroupVersion(a.group + "/" + a.version, a.version)
  }

  /** The discovery document of a non-empty sorted list. */
  function Document(list: seq<ApiService>): ApiGroup
    requires list != []
  {
    ApiGroup(list[0].group, seq(|list|, i requires 0 <= i < |list| => VersionOf(list[i])), VersionOf(list[0]))
  }

  /** What a document says: the group, a version for every service in the order
      of the list, the first one preferred. */
  lemma DocumentMeans(list: seq<ApiService>)
    requires list != []
    ensures var d := Document(list);
            && d.name == list[0].group && |d.versions| == |list|
            && (forall i | 0 <= i < |list| ::
                  d.versions[i].version == list[i].version && d.versions[i].groupVersion == list[i].group + "/" + list[i].version)
            && d.preferred == d.versions[0]
  {
  }

  /** `convert_to_discovery_api_group` */
  method ConvertToDiscoveryApiGroup(services: seq<ApiService>) returns (r: Option<ApiGroup>)
    ensures r == Converted(services)
  {
    OrdersAreTotal();
    var sorted := SortedByGroupAndVersion(services);
    if sorted == [] {
      return None;
    }
    GroupHolds(GroupName, VersionLe, Sort(PriorityLe, services), 0);
    var first := sorted[0];
    var preferred := None;
    var name := "";
    var versions := [];
    var i := 0;
    while i < |first|
      invariant 0 <= i <= |first| && |versions| == i
      invariant forall k | 0 <= k < i :: versions[k] == VersionOf(first[k])
      invariant if i == 0 then preferred == None else preferred == Some(VersionOf(first[0])) && name == first[0].group
    {
      var gv := VersionOf(first[i]);
      if preferred.None? {
        name := first[i].group;
        preferred := Some(gv);
      }
      versions := versions + [gv];
      i := i + 1;
    }
    assert versions == Document(first).versions;
    return Some(ApiGroup(name, versions, preferred.value));
  }

  function Converted(services: seq<ApiService>): Option<ApiGroup> {
    var sorted := SortedGroups(services);
    if sorted == [] || sorted[0] == [] then None else Some(Document(sorted[0]))
  }

  /** `apis_handler_groups`: the groups listed under `/apis`. */
  method ApisHandlerGroups(services: seq<ApiService>) returns (out: seq<ApiGroup>)
    ensures out == Listed(SortedGroups(services))
  {
    OrdersAreTotal();
    var groups := SortedByGroupAndVersion(services);
    out := [];
    var i := 0;
    while i < |groups|
      invariant 0 <= i <= |groups| && out == Listed(groups[..i])
    {
      assert groups[..i + 1][..i] == groups[..i];
      GroupHolds(GroupName, VersionLe, Sort(PriorityLe, services), i);
      if groups[i][0].group != "" {
        var g := ConvertToDiscoveryApiGroup(groups[i]);
        if g.Some? {
          out := out + [g.value];
        }
      }
      i := i + 1;
    }
    assert groups[..i] == groups;
  }

  /** The entry of a list under `/apis`; the legacy group has none. */
  function EntryOf(list: seq<ApiService>): Option<ApiGroup> {
    if list == [] || list[0].group == "" then None else Converted(list)
  }

  function Listed(groups: seq<seq<ApiService>>): seq<ApiGroup> {
    Collect(EntryOf, groups)
  }

  datatype ApiGroupResponse = Delegate | NotFound | Group(document: ApiGroup)

  function Served(group: string, services: seq<ApiService>): ApiGroupResponse {
    var mine := InGroup(group, services);
    if mine == [] then Delegate
    else if Converted(mine).Some? then Group(Converted(mine).value) else NotFound
  }

  /** For every group under `/apis`, `/apis/<group>` serves the very same
      document: the same versions in the same order, the same preferred one. */
  lemma DocumentsAgree(services: seq<ApiService>, k: nat)
    requires k < |SortedGroups(services)|
    ensures var list := SortedGroups(services)[k];
            && list != []
            && Converted(list) == Some(Document(list))
            && Served(list[0].group, services) == Group(Document(list))
  {
    OrdersAreTotal();
    var s := Sort(PriorityLe, services);
    var list, leader := SortedGroups(services)[k], Leaders(GroupName, s)[k];
    GroupHolds(GroupName, VersionLe, s, k);
    assert list[0] in list;
    var mine := Members(GroupName, GroupName(leader), services);
    GroupAlone(GroupName, VersionLe, PriorityLe, services, k);
    forall x | x in mine ensures GroupName(x) == GroupName(leader) {
      MembersMember(GroupName, GroupName(leader), services, x);
    }
    SortMember(PriorityLe, services, leader);
    MembersMember(GroupName, GroupName(leader), services, leader);
    GroupAgain(GroupName, VersionLe, PriorityLe, mine, GroupName(leader));
  }

  /** `/apis` and `/apis/<group>` agree: a document is listed exactly when it is
      the one served for some non-empty group that has an APIService. */
  lemma ApisAgree(services: seq<ApiService>, d: ApiGroup)
    ensures d in Listed(SortedGroups(services)) <==>
            exists a :: a in services && a.group != "" && Served(a.group, services) == Group(d)
  {
    OrdersAreTotal();
    var s, r := Sort(PriorityLe, services), SortedGroups(services);
    CollectMember(EntryOf, r, d);
    if k: nat :| k < |r| && EntryOf(r[k]) == Some(d) {
      DocumentsAgree(services, k);
      GroupHolds(GroupName, VersionLe, s, k);
      var leader := Leaders(GroupName, s)[k];
      SortMember(PriorityLe, services, leader);
      assert r[k][0] in r[k];
      assert leader in services && leader.group != "" && Served(leader.group, services) == Group(d);
    }
    if a :| a in services && a.group != "" && Served(a.group, services) == Group(d) {
      var k := ListOf(services, a);
      DocumentsAgree(services, k);
      assert EntryOf(r[k]) == Some(d);
    }
  }

  /** Every APIService has a list. */
  lemma ListOf(services: seq<ApiService>, a: ApiService) returns (k: nat)
    requires a in services
    ensures k < |SortedGroups(services)| && SortedGroups(services)[k] != [] && SortedGroups(services)[k][0].group == a.group
  {
    OrdersAreTotal();
    var s := Sort(PriorityLe, services);
    SortMember(PriorityLe, services, a);
    var i :| 0 <= i < |s| && s[i] == a;
    Led(GroupName, s, i);
    k := Place(GroupName, Leaders(GroupName, s), GroupName(a));
    GroupHolds(GroupName, VersionLe, s, k);
    var list := SortedGroups(services)[k];
    assert list[0] in list;
  }

  /** A group without APIServices is delegated; every other one is served. */
  lemma ServedExactly(group: string, services: seq<ApiService>)
    ensures Served(group, services).Delegate? <==> forall a | a in services :: a.group != group
    ensures !Served(group, services).NotFound?
  {
    OrdersAreTotal();
    var mine := Members(GroupName, group, services);
    forall a ensures a in mine <==> a in services && a.group == group {
      MembersMember(GroupName, group, services, a);
    }
    if mine != [] {
      assert mine[0] in mine;
      GroupAgain(GroupName, VersionLe, PriorityLe, mine, group);
    } else {
      assert forall a :: a !in mine;
    }
  }

  /** What `/apis/<group>` serves: a document of exactly the group's services,
      sorted by version priority, the first one preferred. */
  ghost predicate Describes(d: ApiGroup, group: string, services: seq<ApiService>, list: seq<ApiService>) {
    && list != [] && d == Document(list) && d.name == group
    && multiset(list) == multiset(InGroup(group, services)) && Sorted(VersionLe, list)
  }

  function InOrder(s: seq<ApiService>): seq<ApiService> {
    Sort(VersionLe, Sort(PriorityLe, s))
  }

  lemma InOrderSorted(s: seq<ApiService>)
    ensures multiset(InOrder(s)) == multiset(s) && Sorted(VersionLe, InOrder(s))
  {
    OrdersAreTotal();
    SortSorts(PriorityLe, s);
    SortSorts(VersionLe, Sort(PriorityLe, s));
  }

  lemma OneGroup(mine: seq<ApiService>, group: string)
    requires mine != [] && forall a | a in mine :: GroupName(a) == group
    ensures InOrder(mine) != [] && Converted(mine) == Some(Document(InOrder(mine)))
  {
    OrdersAreTotal();
    GroupAgain(GroupName, VersionLe, PriorityLe, mine, group);
  }

  lemma OneName(mine: seq<ApiService>, group: string)
    requires forall a | a in mine :: GroupName(a) == group
    ensures forall a | a in InOrder(mine) :: GroupName(a) == group
  {
    OrdersAreTotal();
    SortKeepsKey(GroupName, PriorityLe, mine, group);
    SortKeepsKey(GroupName, VersionLe, Sort(PriorityLe, mine), group);
  }

  lemma ServedMeans(group: string, services: seq<ApiService>)
    requires Served(group, services).Group?
    ensures exists list :: Describes(Served(group, services).document, group, services, list)
  {
    var mine := InGroup(group, services);
    forall a | a in mine ensures GroupName(a) == group {
      MembersMember(GroupName, group, services, a);
    }
    OneGroup(mine, group);
    OneName(mine, group);
    InOrderSorted(mine);
    assert GroupName(InOrder(mine)[0]) == group;
    assert Describes(Served(group, services).document, group, services, InOrder(mine));
  }

  /** `serve_api_group`: a group without APIServices is delegated, any other is
      answered with the document of its services in version order, and nothing
      is ever not found. */
  method ServeApiGroup(group: string, services: seq<ApiService>) returns (r: ApiGroupResponse)
    ensures r == Served(group, services)
    ensures r.Delegate? <==> forall a | a in services :: a.group != group
    ensures !r.Delegate? ==> r.Group? && exists list :: Describes(r.document, group, services, list)
  {
    ServedExactly(group, services);
    if Served(group, services).Group? {
      ServedMeans(group, services);
    }
    var mine := InGroup(group, services);
    if mine == [] {
      return Delegate;
    }
    var g := ConvertToDiscoveryApiGroup(mine);
    return if g.Some? then Group(g.value) else NotFound;
  }
}
