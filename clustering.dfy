/**
 * Clustering of buildings and planning applications into one result list:
 * buildings at the same location are merged into the group's first member,
 * planning applications are grouped by address, a group moves into the
 * building at the first of its locations that has one, and the groups that
 * match no building become developments at their first member's location.
 *
 * Locations are compared by equality only and are taken as already
 * translated to building centres. The hash maps are maps; where their
 * iteration order decides the result (the order in which address groups are
 * placed, and the order of the merged buildings in the result) that order
 * is a parameter.
 */
module Clustering {
  import opened Buildings
  import opened Util

  /** The members of xs whose key is k, in their order in xs. */
  function With<T(==), K(==)>(xs: seq<T>, key: T -> K, k: K): (r: seq<T>)
    ensures |r| <= |xs| && forall x :: x in r ==> x in xs && key(x) == k
  {
    if |xs| == 0 then []
    else With(xs[..|xs| - 1], key, k) + (if key(xs[|xs| - 1]) == k then [xs[|xs| - 1]] else [])
  }

  /** The distinct keys of xs. */
  function KeysOf<T(==), K>(xs: seq<T>, key: T -> K): set<K> {
    set x | x in xs :: key(x)
  }

  /** Adding element i to the prefix adds it to its own group and to no other. */
  lemma WithStep<T, K>(xs: seq<T>, key: T -> K, i: nat, next: nat, k: K)
    requires next == i + 1 <= |xs|
    ensures With(xs[..next], key, k) == With(xs[..i], key, k) + (if key(xs[i]) == k then [xs[i]] else [])
    ensures KeysOf(xs[..next], key) == KeysOf(xs[..i], key) + {key(xs[i])}
  {
    assert xs[..next][..i] == xs[..i];
    assert xs[..next] == xs[..i] + [xs[i]];
  }

  /** A key no element has has an empty group. */
  lemma {:induction false} WithAbsent<T, K>(xs: seq<T>, key: T -> K, k: K)
    requires k !in KeysOf(xs, key)
    ensures With(xs, key, k) == []
  {
    if |xs| > 0 {
      var init := xs[..|xs| - 1];
      assert forall x :: x in init ==> x in xs;
      WithAbsent(init, key, k);
      assert xs[|xs| - 1] in xs;
    }
  }

  /** One `groups[key(x)].push_back(x)`, for the element at i. */
  method PushBack<T(==), K(==)>(xs: seq<T>, key: T -> K, i: nat, groups: map<K, seq<T>>) returns (groups': map<K, seq<T>>)
    requires i < |xs| && groups.Keys == KeysOf(xs[..i], key)
    requires forall k :: k in groups ==> groups[k] == With(xs[..i], key, k)
    ensures groups'.Keys == KeysOf(xs[..i + 1], key)
    ensures forall k :: k in groups' ==> groups'[k] == With(xs[..i + 1], key, k)
  {
    var k := key(xs[i]);
    var group := if k in groups then groups[k] else [];
    if k !in groups {
      WithAbsent(xs[..i], key, k);
    }
    var next := i + 1;
    groups' := groups[k := group + [xs[i]]];
    WithStep(xs, key, i, next, k);
    forall k' | k' in groups' ensures groups'[k'] == With(xs[..next], key, k') {
      WithStep(xs, key, i, next, k');
      if k' != k {
        assert groups'[k'] == groups[k'];
      }
    }
  }

  /**
   * Grouping into a hash map of vectors (`groups[key(x)].push_back(x)` for
   * each x in turn): one group per distinct key, holding the members with
   * that key in input order.
   */
  method GroupBy<T(==), K(==)>(xs: seq<T>, key: T -> K) returns (groups: map<K, seq<T>>)
    ensures groups.Keys == KeysOf(xs, key)
    ensures forall k :: k in groups ==> groups[k] == With(xs, key, k)
  {
    groups := map[];
    var i := 0;
    while i != |xs|
      invariant 0 <= i <= |xs|
      invariant groups.Keys == KeysOf(xs[..i], key)
      invariant forall k :: k in groups ==> groups[k] == With(xs[..i], key, k)
      decreases |xs| - i
    {
      groups := PushBack(xs, key, i, groups);
      i := i + 1;
    }
    assert xs[..|xs|] == xs;
  }

  /**
   * combine_buildings stays inside its table at every step: the name merged
   * so far is never longer than the next member's non-empty name.
   */
  predicate Mergeable(group: seq<Building>)
    decreases |group|, 0
  {
    |group| <= 1 ||
    (Mergeable(group[..|group| - 1]) && LcsInBounds(CombineAll(group[..|group| - 1]).name, group[|group| - 1].name))
  }

  /** The group's first member after combine_buildings with each later member in turn. */
  function CombineAll(group: seq<Building>): Building
    requires |group| > 0 && Mergeable(group)
    decreases |group|, 1
  {
    if |group| == 1 then group[0] else CombineBuildings(CombineAll(group[..|group| - 1]), group[|group| - 1])
  }

  /** The inner merge loop: the group's first member absorbs each later member in turn. */
  method MergeGroup(group: seq<Building>) returns (x: Building)
    requires |group| > 0 && Mergeable(group)
    ensures x == CombineAll(group) && x.location == group[0].location
  {
    x := group[0];
    for i := 1 to |group|
      invariant Mergeable(group[..i]) && x == CombineAll(group[..i]) && x.location == group[0].location
    {
      MergeStep(group, i);
      x := CombineBuildings(x, group[i]);
    }
    assert group[..|group|] == group;
  }

  /** One step of the merge loop: the prefix one longer merges by combining in the next member. */
  lemma MergeStep(group: seq<Building>, i: nat)
    requires Mergeable(group) && 0 < i < |group|
    ensures Mergeable(group[..i + 1]) && Mergeable(group[..i])
    ensures LcsInBounds(CombineAll(group[..i]).name, group[i].name)
    ensures CombineAll(group[..i + 1]) == CombineBuildings(CombineAll(group[..i]), group[i])
  {
    MergeablePrefix(group, i + 1);
    PrefixStep(group, i);
  }

  /** The prefix of length i + 1 is the prefix of length i followed by member i. */
  lemma PrefixStep(group: seq<Building>, i: nat)
    requires 0 < i < |group| && Mergeable(group[..i + 1])
    ensures Mergeable(group[..i]) && LcsInBounds(CombineAll(group[..i]).name, group[i].name)
    ensures CombineAll(group[..i + 1]) == CombineBuildings(CombineAll(group[..i]), group[i])
  {
    var p := group[..i + 1];
    MergeableLast(p);
    assert p[..|p| - 1] == group[..i];
  }

  /** A group of two or more merges its members but the last, then combines in the last. */
  lemma MergeableLast(p: seq<Building>)
    requires |p| > 1 && Mergeable(p)
    ensures Mergeable(p[..|p| - 1]) && LcsInBounds(CombineAll(p[..|p| - 1]).name, p[|p| - 1].name)
    ensures CombineAll(p) == CombineBuildings(CombineAll(p[..|p| - 1]), p[|p| - 1])
  {
  }

  /** The members up to any point merge as the whole group does. */
  lemma {:induction false} MergeablePrefix(group: seq<Building>, n: nat)
    requires Mergeable(group) && 0 < n <= |group|
    ensures Mergeable(group[..n])
    decreases |group|
  {
    if n < |group| {
      var init := group[..|group| - 1];
      MergeablePrefix(init, n);
      assert init[..n] == group[..n];
    } else {
      assert group[..n] == group;
    }
  }

  /**
   * The merge loop over the building groups: each group's first member
   * absorbs the others and is filed under its location. The groups are
   * visited in the hash map's order, which the result does not depend on.
   */
  method CombineGroups(groups: map<FPoint, seq<Building>>) returns (heads: map<FPoint, Building>)
    requires forall loc :: loc in groups ==> |groups[loc]| > 0 && groups[loc][0].location == loc && Mergeable(groups[loc])
    ensures heads.Keys == groups.Keys
    ensures forall loc :: loc in heads ==> heads[loc] == CombineAll(groups[loc])
  {
    heads := map[];
    var remaining := groups.Keys;
    while remaining != {}
      invariant remaining <= groups.Keys && heads.Keys == groups.Keys - remaining
      invariant forall loc :: loc in heads ==> heads[loc] == CombineAll(groups[loc])
      decreases |remaining|
    {
      var loc :| loc in remaining;
      var x := MergeGroup(groups[loc]);
      heads := heads[x.location := x];
      remaining := remaining - {loc};
    }
  }

  /** FLT_MAX, the largest float: the coordinates of "no building found". */
  const FLT_MAX: real := 340282346638528859811704183484516925440.0

  const NOT_FOUND: FPoint := FPoint(FLT_MAX, FLT_MAX)

  /** The location of the first member from k on that has a building, or NOT_FOUND. */
  function FirstMatch(keys: set<FPoint>, group: seq<PlanningApplication>, k: nat): (loc: FPoint)
    requires k <= |group|
    ensures loc == NOT_FOUND || (loc in keys && exists i :: k <= i < |group| && group[i].location == loc)
    decreases |group| - k
  {
    if k == |group| then NOT_FOUND
    else if group[k].location in keys then group[k].location
    else FirstMatch(keys, group, k + 1)
  }

  /** The test after the search: neither coordinate is FLT_MAX. */
  predicate Found(loc: FPoint) {
    loc.x != FLT_MAX && loc.y != FLT_MAX
  }

  /** The group with every member's location set to loc. */
  function Relocated(group: seq<PlanningApplication>, loc: FPoint): (r: seq<PlanningApplication>)
    ensures |r| == |group|
  {
    if |group| == 0 then [] else Relocated(group[..|group| - 1], loc) + [group[|group| - 1].(location := loc)]
  }

  /** The merged buildings by location, and the applications that become developments, in order. */
  datatype Placement = Placement(heads: map<FPoint, Building>, devs: seq<PlanningApplication>)

  /**
   * One address group: moved whole, in order, into the building at the
   * first of its locations that has one; otherwise every member is moved to
   * the first member's location and queued as a development.
   */
  function PlaceGroup(st: Placement, group: seq<PlanningApplication>): Placement
    requires |group| > 0
  {
    var loc := FirstMatch(st.heads.Keys, group, 0);
    if Found(loc) then
      Placement(st.heads[loc := st.heads[loc].(planApps := st.heads[loc].planApps + group)], st.devs)
    else Placement(st.heads, st.devs + Relocated(group, group[0].location))
  }

  /** Every address in the order has a non-empty group. */
  predicate GroupsFor(pgroups: map<string, seq<PlanningApplication>>, order: seq<string>) {
    forall j :: 0 <= j < |order| ==> order[j] in pgroups && |pgroups[order[j]]| > 0
  }

  /** The first n address groups in the hash map's order, placed one after the other. */
  function PlaceAll(st: Placement, pgroups: map<string, seq<PlanningApplication>>, order: seq<string>, n: nat): Placement
    requires n <= |order| && GroupsFor(pgroups, order)
  {
    if n == 0 then st else PlaceGroup(PlaceAll(st, pgroups, order, n - 1), pgroups[order[n - 1]])
  }

  /** The search loop: stops at the first member whose location has a building. */
  method FindBuilding(heads: map<FPoint, Building>, group: seq<PlanningApplication>) returns (loc: FPoint)
    ensures loc == FirstMatch(heads.Keys, group, 0)
  {
    loc := NOT_FOUND;
    var i := 0;
    while i != |group|
      invariant 0 <= i <= |group| && FirstMatch(heads.Keys, group, 0) == FirstMatch(heads.Keys, group, i)
      decreases |group| - i
    {
      if group[i].location in heads {
        loc := group[i].location;
        return;
      }
      i := i + 1;
    }
  }

  /** Moving the group into the building: one push_back per member. */
  method MoveInto(b: Building, group: seq<PlanningApplication>) returns (r: Building)
    ensures r == b.(planApps := b.planApps + group)
  {
    r := b;
    for i := 0 to |group|
      invariant r == b.(planApps := b.planApps + group[..i])
    {
      assert group[..i + 1] == group[..i] + [group[i]];
      r := r.(planApps := r.planApps + [group[i]]);
    }
    assert group[..|group|] == group;
  }

  /** Settling for developments: each member takes the location and is queued. */
  method QueueRelocated(devs: seq<PlanningApplication>, group: seq<PlanningApplication>, loc: FPoint)
    returns (r: seq<PlanningApplication>)
    ensures r == devs + Relocated(group, loc)
  {
    r := devs;
    for i := 0 to |group|
      invariant r == devs + Relocated(group[..i], loc)
    {
      assert group[..i + 1][..i] == group[..i];
      r := r + [group[i].(location := loc)];
    }
    assert group[..|group|] == group;
  }

  /** The placement loop over the address groups, in the hash map's order. */
  method PlaceGroups(heads0: map<FPoint, Building>, pgroups: map<string, seq<PlanningApplication>>, order: seq<string>)
    returns (heads: map<FPoint, Building>, devs: seq<PlanningApplication>)
    requires GroupsFor(pgroups, order)
    ensures Placement(heads, devs) == PlaceAll(Placement(heads0, []), pgroups, order, |order|)
  {
    heads, devs := heads0, [];
    for n := 0 to |order|
      invariant Placement(heads, devs) == PlaceAll(Placement(heads0, []), pgroups, order, n)
    {
      var group := pgroups[order[n]];
      var loc := FindBuilding(heads, group);
      if Found(loc) {
        var b := MoveInto(heads[loc], group);
        heads := heads[loc := b];
      } else {
        devs := QueueRelocated(devs, group, group[0].location);
      }
    }
  }

  /** The merged buildings in the given order of their locations. */
  function HeadsInOrder(heads: map<FPoint, Building>, order: seq<FPoint>): (r: seq<Building>)
    requires forall j :: 0 <= j < |order| ==> order[j] in heads
    ensures |r| == |order|
  {
    if |order| == 0 then [] else HeadsInOrder(heads, order[..|order| - 1]) + [heads[order[|order| - 1]]]
  }

  /** One DEVELOPMENT building per queued application, in queue order. */
  function Developments(devs: seq<PlanningApplication>): (r: seq<Building>)
    ensures |r| == |devs|
  {
    if |devs| == 0 then [] else Developments(devs[..|devs| - 1]) + [MakeDevelopment(devs[|devs| - 1])]
  }

  /** The result stream: every merged building in the hash map's order, then the developments. */
  method Collect(heads: map<FPoint, Building>, order: seq<FPoint>, devs: seq<PlanningApplication>) returns (res: seq<Building>)
    requires forall j :: 0 <= j < |order| ==> order[j] in heads
    ensures res == HeadsInOrder(heads, order) + Developments(devs)
  {
    res := [];
    for i := 0 to |order|
      invariant res == HeadsInOrder(heads, order[..i])
    {
      assert order[..i + 1][..i] == order[..i];
      res := res + [heads[order[i]]];
    }
    assert order[..|order|] == order;
    ghost var heads' := res;
    for i := 0 to |devs|
      invariant res == heads' + Developments(devs[..i])
    {
      assert devs[..i + 1][..i] == devs[..i];
      res := res + [MakeDevelopment(devs[i])];
    }
    assert devs[..|devs|] == devs;
  }

  function LocationOf(b: Building): FPoint {
    b.location
  }

  function AddressOf(p: PlanningApplication): string {
    p.address
  }

  /** The order lists each member of the set exactly once. */
  predicate Lists<K>(order: seq<K>, keys: set<K>) {
    (forall j :: 0 <= j < |order| ==> order[j] in keys) && (forall k :: k in keys ==> k in order) &&
    (forall i, j :: 0 <= i < j < |order| ==> order[i] != order[j])
  }

  /** A key that occurs has a non-empty group. */
  lemma WithPresent<T, K>(xs: seq<T>, key: T -> K, k: K)
    requires k in KeysOf(xs, key)
    ensures |With(xs, key, k)| > 0
  {
    var i :| 0 <= i < |xs| && key(xs[i]) == k;
    WithHas(xs, key, i);
  }

  /** Element i belongs to its own group. */
  lemma {:induction false} WithHas<T, K>(xs: seq<T>, key: T -> K, i: nat)
    requires i < |xs|
    ensures xs[i] in With(xs, key, key(xs[i]))
  {
    if i < |xs| - 1 {
      var init := xs[..|xs| - 1];
      WithHas(init, key, i);
      assert init[i] == xs[i];
    }
  }

  /** Every location's buildings merge without leaving the LCS table. */
  predicate NamesMerge(buildings: seq<Building>) {
    forall loc :: loc in KeysOf(buildings, LocationOf) ==> Mergeable(With(buildings, LocationOf, loc))
  }

  /** The merged building at each location, before any application is moved in. */
  function MergedBuildings(buildings: seq<Building>): (heads: map<FPoint, Building>)
    requires NamesMerge(buildings)
    ensures heads.Keys == KeysOf(buildings, LocationOf)
  {
    map loc | loc in KeysOf(buildings, LocationOf) ::
      (WithPresent(buildings, LocationOf, loc); CombineAll(With(buildings, LocationOf, loc)))
  }

  /** The address groups. */
  function AddressGroups(apps: seq<PlanningApplication>): (pgroups: map<string, seq<PlanningApplication>>)
    ensures pgroups.Keys == KeysOf(apps, AddressOf)
  {
    map a | a in KeysOf(apps, AddressOf) :: With(apps, AddressOf, a)
  }

  lemma AddressGroupsNonEmpty(apps: seq<PlanningApplication>, order: seq<string>)
    requires Lists(order, KeysOf(apps, AddressOf))
    ensures GroupsFor(AddressGroups(apps), order)
  {
    forall j | 0 <= j < |order| ensures |AddressGroups(apps)[order[j]]| > 0 {
      WithPresent(apps, AddressOf, order[j]);
    }
  }

  /** The placement of every address group, in the hash map's order. */
  function Placed(buildings: seq<Building>, apps: seq<PlanningApplication>, addrOrder: seq<string>): Placement
    requires NamesMerge(buildings) && Lists(addrOrder, KeysOf(apps, AddressOf))
  {
    AddressGroupsNonEmpty(apps, addrOrder);
    PlaceAll(Placement(MergedBuildings(buildings), []), AddressGroups(apps), addrOrder, |addrOrder|)
  }

  /** The heads' keys survive the placement. */
  lemma {:induction false} PlaceAllKeys(st: Placement, pgroups: map<string, seq<PlanningApplication>>, order: seq<string>, n: nat)
    requires n <= |order| && GroupsFor(pgroups, order)
    ensures PlaceAll(st, pgroups, order, n).heads.Keys == st.heads.Keys
  {
    if n > 0 {
      PlaceAllKeys(st, pgroups, order, n - 1);
    }
  }

  /** What cluster_buildings returns, for the given hash map orders. */
  function Clustered(buildings: seq<Building>, apps: seq<PlanningApplication>, headOrder: seq<FPoint>, addrOrder: seq<string>): seq<Building>
    requires NamesMerge(buildings) && Lists(headOrder, KeysOf(buildings, LocationOf)) && Lists(addrOrder, KeysOf(apps, AddressOf))
  {
    var placed := Placed(buildings, apps, addrOrder);
    AddressGroupsNonEmpty(apps, addrOrder);
    PlaceAllKeys(Placement(MergedBuildings(buildings), []), AddressGroups(apps), addrOrder, |addrOrder|);
    HeadsInOrder(placed.heads, headOrder) + Developments(placed.devs)
  }

  /**
   * cluster_buildings: group the buildings by location and merge each group,
   * group the applications by address and place each group, then list the
   * merged buildings and the developments. `headOrder` is the order in which
   * the location map yields its buildings, `addrOrder` the order in which
   * the address map yields its groups.
   */
  method ClusterBuildings(buildings: seq<Building>, apps: seq<PlanningApplication>, headOrder: seq<FPoint>, addrOrder: seq<string>)
    returns (res: seq<Building>)
    requires NamesMerge(buildings) && Lists(headOrder, KeysOf(buildings, LocationOf)) && Lists(addrOrder, KeysOf(apps, AddressOf))
    ensures res == Clustered(buildings, apps, headOrder, addrOrder)
  {
    var groups: map<FPoint, seq<Building>> := GroupBy(buildings, LocationOf);
    forall loc: FPoint | loc in groups ensures |groups[loc]| > 0 && groups[loc][0].location == loc && Mergeable(groups[loc]) {
      WithPresent(buildings, LocationOf, loc);
      assert groups[loc][0] in groups[loc];
    }
    var heads := CombineGroups(groups);
    assert heads == MergedBuildings(buildings);
    var pgroups := GroupBy(apps, AddressOf);
    assert pgroups == AddressGroups(apps);
    AddressGroupsNonEmpty(apps, addrOrder);
    var devs;
    heads, devs := PlaceGroups(heads, pgroups, addrOrder);
    PlaceAllKeys(Placement(MergedBuildings(buildings), []), pgroups, addrOrder, |addrOrder|);
    res := Collect(heads, headOrder, devs);
  }
}

module ClusteringProperties {
  import opened Buildings
  import opened Util
  import opened Clustering

  /** The subunits of the group's members, one member after the other. */
  function AllSubunits(group: seq<Building>): seq<SubUnit> {
    if |group| == 0 then [] else AllSubunits(group[..|group| - 1]) + group[|group| - 1].subunits
  }

  /** The valuations of the group's members, one member after the other. */
  function AllValuations(group: seq<Building>): seq<Valuation> {
    if |group| == 0 then [] else AllValuations(group[..|group| - 1]) + group[|group| - 1].valuations
  }

  /**
   * The merged building is the first member with every member's subunits and
   * valuations in order; its location and planning applications are the
   * first member's, and a merge of two or more always has a name.
   */
  lemma {:induction false} CombineAllMerges(group: seq<Building>)
    requires |group| > 0 && Mergeable(group)
    ensures var r := CombineAll(group);
      r.location == group[0].location && r.planApps == group[0].planApps &&
      r.street == group[0].street && r.town == group[0].town && r.postcode == group[0].postcode &&
      r.subunits == AllSubunits(group) && r.valuations == AllValuations(group) &&
      (|group| > 1 ==> r.name != "")
  {
    if |group| == 1 {
      assert AllSubunits(group) == AllSubunits(group[..0]) + group[0].subunits;
      assert AllValuations(group) == AllValuations(group[..0]) + group[0].valuations;
    } else {
      var init := group[..|group| - 1];
      CombineAllMerges(init);
      assert init[0] == group[0];
    }
  }

  /** Entry i of the ordered heads is the building at the i-th location. */
  lemma {:induction false} HeadsInOrderAt(heads: map<FPoint, Building>, order: seq<FPoint>, i: nat)
    requires (forall j :: 0 <= j < |order| ==> order[j] in heads) && i < |order|
    ensures HeadsInOrder(heads, order)[i] == heads[order[i]]
  {
    if i < |order| - 1 {
      var init := order[..|order| - 1];
      HeadsInOrderAt(heads, init, i);
    }
  }

  /** Placing applications changes only the buildings' application lists. */
  lemma {:induction false} PlaceAllOnlyApps(st: Placement, pgroups: map<string, seq<PlanningApplication>>, order: seq<string>, n: nat, loc: FPoint)
    requires n <= |order| && GroupsFor(pgroups, order) && loc in st.heads
    ensures var h := PlaceAll(st, pgroups, order, n).heads;
      loc in h && h[loc] == st.heads[loc].(planApps := h[loc].planApps)
  {
    if n > 0 {
      PlaceAllOnlyApps(st, pgroups, order, n - 1, loc);
      PlaceAllKeys(st, pgroups, order, n - 1);
    }
  }

  /** A listing without repeats is as long as the set it lists. */
  lemma {:induction false} ListsCount<K>(order: seq<K>, keys: set<K>)
    requires Lists(order, keys)
    ensures |order| == |keys|
  {
    if |order| > 0 {
      var init := order[..|order| - 1];
      var last := order[|order| - 1];
      var rest := keys - {last};
      forall k | k in rest ensures k in init {
        var j :| 0 <= j < |order| && order[j] == k;
      }
      ListsCount(init, rest);
    }
  }

  /** The placement keeps one building per location of the merge. */
  lemma PlacedKeys(buildings: seq<Building>, apps: seq<PlanningApplication>, addrOrder: seq<string>)
    requires NamesMerge(buildings) && Lists(addrOrder, KeysOf(apps, AddressOf))
    ensures Placed(buildings, apps, addrOrder).heads.Keys == KeysOf(buildings, LocationOf)
  {
    AddressGroupsNonEmpty(apps, addrOrder);
    PlaceAllKeys(Placement(MergedBuildings(buildings), []), AddressGroups(apps), addrOrder, |addrOrder|);
  }

  /** The building at a location after placement is the merge of the buildings there. */
  lemma PlacedIsMerged(buildings: seq<Building>, apps: seq<PlanningApplication>, addrOrder: seq<string>, loc: FPoint)
    requires NamesMerge(buildings) && Lists(addrOrder, KeysOf(apps, AddressOf)) && loc in KeysOf(buildings, LocationOf)
    ensures var h := Placed(buildings, apps, addrOrder).heads; loc in h && MergedAt(buildings, loc, h[loc])
  {
    AddressGroupsNonEmpty(apps, addrOrder);
    var st := Placement(MergedBuildings(buildings), []);
    PlaceAllOnlyApps(st, AddressGroups(apps), addrOrder, |addrOrder|, loc);
    WithPresent(buildings, LocationOf, loc);
    var g := With(buildings, LocationOf, loc);
    CombineAllMerges(g);
    assert g[0] in g;
  }

  /** The result: the placed buildings in the location map's order, then the developments. */
  lemma ClusteredParts(buildings: seq<Building>, apps: seq<PlanningApplication>, headOrder: seq<FPoint>, addrOrder: seq<string>)
    requires NamesMerge(buildings) && Lists(headOrder, KeysOf(buildings, LocationOf)) && Lists(addrOrder, KeysOf(apps, AddressOf))
    ensures var placed := Placed(buildings, apps, addrOrder);
      (forall j :: 0 <= j < |headOrder| ==> headOrder[j] in placed.heads) &&
      Clustered(buildings, apps, headOrder, addrOrder) == HeadsInOrder(placed.heads, headOrder) + Developments(placed.devs)
  {
    PlacedKeys(buildings, apps, addrOrder);
  }

  /**
   * The result holds one building per distinct building location and one
   * per queued application.
   */
  lemma ResultSize(buildings: seq<Building>, apps: seq<PlanningApplication>, headOrder: seq<FPoint>, addrOrder: seq<string>)
    requires NamesMerge(buildings) && Lists(headOrder, KeysOf(buildings, LocationOf)) && Lists(addrOrder, KeysOf(apps, AddressOf))
    ensures |Clustered(buildings, apps, headOrder, addrOrder)| ==
      |KeysOf(buildings, LocationOf)| + |Placed(buildings, apps, addrOrder).devs|
  {
    ListsCount(headOrder, KeysOf(buildings, LocationOf));
    ClusteredParts(buildings, apps, headOrder, addrOrder);
  }

  /**
   * The result opens with exactly one building per location, in the location
   * map's order: the first building found there, with the subunits and
   * valuations of every building at that location.
   */
  lemma OneBuildingPerLocation(buildings: seq<Building>, apps: seq<PlanningApplication>, headOrder: seq<FPoint>, addrOrder: seq<string>, i: nat)
    requires NamesMerge(buildings) && Lists(headOrder, KeysOf(buildings, LocationOf)) && Lists(addrOrder, KeysOf(apps, AddressOf))
    requires i < |headOrder|
    ensures MergedAt(buildings, headOrder[i], Clustered(buildings, apps, headOrder, addrOrder)[i])
  {
    ClusteredParts(buildings, apps, headOrder, addrOrder);
    HeadsInOrderAt(Placed(buildings, apps, addrOrder).heads, headOrder, i);
    PlacedIsMerged(buildings, apps, addrOrder, headOrder[i]);
  }

  /** After the buildings come the developments, one per queued application, in queue order. */
  lemma DevelopmentsFollow(buildings: seq<Building>, apps: seq<PlanningApplication>, headOrder: seq<FPoint>, addrOrder: seq<string>, k: nat)
    requires NamesMerge(buildings) && Lists(headOrder, KeysOf(buildings, LocationOf)) && Lists(addrOrder, KeysOf(apps, AddressOf))
    requires k < |Placed(buildings, apps, addrOrder).devs|
    ensures |headOrder| + k < |Clustered(buildings, apps, headOrder, addrOrder)|
    ensures Clustered(buildings, apps, headOrder, addrOrder)[|headOrder| + k] ==
      MakeDevelopment(Placed(buildings, apps, addrOrder).devs[k])
  {
    ClusteredParts(buildings, apps, headOrder, addrOrder);
    DevelopmentsAt(Placed(buildings, apps, addrOrder).devs, k);
  }

  /** b is what the buildings at loc merge into, with any applications. */
  predicate MergedAt(buildings: seq<Building>, loc: FPoint, b: Building) {
    var g := With(buildings, LocationOf, loc);
    |g| > 0 && Mergeable(g) && b.location == loc && b.name == CombineAll(g).name && b.tob == CombineAll(g).tob &&
    b.street == g[0].street && b.town == g[0].town && b.postcode == g[0].postcode &&
    b.subunits == AllSubunits(g) && b.valuations == AllValuations(g)
  }

  lemma {:induction false} DevelopmentsAt(devs: seq<PlanningApplication>, k: nat)
    requires k < |devs|
    ensures Developments(devs)[k] == MakeDevelopment(devs[k])
  {
    if k < |devs| - 1 {
      DevelopmentsAt(devs[..|devs| - 1], k);
    }
  }

  /** The planning applications held by a sequence of buildings. */
  function AppsIn(bs: seq<Building>): multiset<PlanningApplication> {
    if |bs| == 0 then multiset{} else AppsIn(bs[..|bs| - 1]) + multiset(bs[|bs| - 1].planApps)
  }

  /** The planning applications of the buildings at the listed locations. */
  function AppsAt(heads: map<FPoint, Building>, order: seq<FPoint>): multiset<PlanningApplication> {
    if |order| == 0 then multiset{}
    else
      var loc := order[|order| - 1];
      AppsAt(heads, order[..|order| - 1]) + (if loc in heads then multiset(heads[loc].planApps) else multiset{})
  }

  /** Whether the group of applications at address a finds a building. */
  predicate Matched(buildings: seq<Building>, apps: seq<PlanningApplication>, a: string) {
    Found(FirstMatch(KeysOf(buildings, LocationOf), With(apps, AddressOf, a), 0))
  }

  /** The location of the first application with p's address. */
  function FirstLocation(apps: seq<PlanningApplication>, p: PlanningApplication): FPoint {
    var g := With(apps, AddressOf, p.address);
    if |g| > 0 then g[0].location else p.location
  }

  /** What each application contributes to the buildings: itself, when its group is matched. */
  function MoveSel(buildings: seq<Building>, apps: seq<PlanningApplication>): PlanningApplication -> seq<PlanningApplication> {
    (p: PlanningApplication) => if Matched(buildings, apps, p.address) then [p] else []
  }

  /** What each application contributes to the developments: itself at its group's first location, when its group is not matched. */
  function SettleSel(buildings: seq<Building>, apps: seq<PlanningApplication>): PlanningApplication -> seq<PlanningApplication> {
    (p: PlanningApplication) => if Matched(buildings, apps, p.address) then [] else [p.(location := FirstLocation(apps, p))]
  }

  /** The contributions of xs, in order. */
  function Pick(xs: seq<PlanningApplication>, sel: PlanningApplication -> seq<PlanningApplication>): seq<PlanningApplication> {
    if |xs| == 0 then [] else Pick(xs[..|xs| - 1], sel) + sel(xs[|xs| - 1])
  }

  /** The applications, in input order, whose address group finds a building. */
  function MovedIn(buildings: seq<Building>, apps: seq<PlanningApplication>): seq<PlanningApplication> {
    Pick(apps, MoveSel(buildings, apps))
  }

  /** The applications, in input order, whose address group finds none, each at its group's first location. */
  function Settled(buildings: seq<Building>, apps: seq<PlanningApplication>): seq<PlanningApplication> {
    Pick(apps, SettleSel(buildings, apps))
  }

  /** The contributions of the address groups listed in order, the groups taken from xs. */
  function GroupSum(xs: seq<PlanningApplication>, order: seq<string>, sel: PlanningApplication -> seq<PlanningApplication>): multiset<PlanningApplication> {
    if |order| == 0 then multiset{}
    else GroupSum(xs, order[..|order| - 1], sel) + multiset(Pick(With(xs, AddressOf, order[|order| - 1]), sel))
  }

  lemma {:induction false} PickAppend(xs: seq<PlanningApplication>, ys: seq<PlanningApplication>, sel: PlanningApplication -> seq<PlanningApplication>)
    ensures Pick(xs + ys, sel) == Pick(xs, sel) + Pick(ys, sel)
  {
    if |ys| > 0 {
      var init := ys[..|ys| - 1];
      PickAppend(xs, init, sel);
      assert (xs + ys)[..|xs + ys| - 1] == xs + init;
    } else {
      assert xs + ys == xs;
    }
  }

  /** Adding one application to xs adds its contribution once, when its address is listed. */
  lemma {:induction false} GroupSumStep(xs: seq<PlanningApplication>, x: PlanningApplication, order: seq<string>, sel: PlanningApplication -> seq<PlanningApplication>)
    requires forall i, j :: 0 <= i < j < |order| ==> order[i] != order[j]
    ensures GroupSum(xs + [x], order, sel) ==
      GroupSum(xs, order, sel) + (if x.address in order then multiset(sel(x)) else multiset{})
  {
    if |order| > 0 {
      var init := order[..|order| - 1];
      var a := order[|order| - 1];
      var mine := multiset(sel(x));
      var before := if x.address in init then mine else multiset{};
      var here := if x.address == a then mine else multiset{};
      GroupSumStep(xs, x, init, sel);
      PickWithSnoc(xs, x, a, sel);
      LastListedOnce(order, x.address);
      assert (if x.address in order then mine else multiset{}) == before + here;
      calc {
        GroupSum(xs + [x], order, sel);
        GroupSum(xs + [x], init, sel) + multiset(Pick(With(xs + [x], AddressOf, a), sel));
        GroupSum(xs, init, sel) + before + multiset(Pick(With(xs + [x], AddressOf, a), sel));
        { var extra := if x.address == a then sel(x) else [];
          assert Pick(With(xs + [x], AddressOf, a), sel) == Pick(With(xs, AddressOf, a), sel) + extra;
          assert multiset(Pick(With(xs, AddressOf, a), sel) + extra) == multiset(Pick(With(xs, AddressOf, a), sel)) + multiset(extra);
          assert multiset(extra) == here; }
        GroupSum(xs, init, sel) + before + (multiset(Pick(With(xs, AddressOf, a), sel)) + here);
        { Interleave(GroupSum(xs, init, sel), before, multiset(Pick(With(xs, AddressOf, a), sel)), here); }
        GroupSum(xs, init, sel) + multiset(Pick(With(xs, AddressOf, a), sel)) + (before + here);
        GroupSum(xs, order, sel) + (before + here);
      }
    }
  }

  lemma Interleave(a: multiset<PlanningApplication>, b: multiset<PlanningApplication>, c: multiset<PlanningApplication>, d: multiset<PlanningApplication>)
    ensures a + b + (c + d) == a + c + (b + d)
  {
  }

  /** In a listing without repeats, a key is listed before the last entry exactly when it is listed and is not the last entry. */
  lemma LastListedOnce<K>(order: seq<K>, s: K)
    requires |order| > 0 && forall i, j :: 0 <= i < j < |order| ==> order[i] != order[j]
    ensures s in order[..|order| - 1] <==> s in order && s != order[|order| - 1]
  {
    var init := order[..|order| - 1];
    assert order == init + [order[|order| - 1]];
    if s in init {
      var j :| 0 <= j < |init| && init[j] == s;
      assert order[j] == s;
    }
  }

  /** The group of a in xs + [x] gains x's contribution when x has address a. */
  lemma PickWithSnoc(xs: seq<PlanningApplication>, x: PlanningApplication, a: string, sel: PlanningApplication -> seq<PlanningApplication>)
    ensures Pick(With(xs + [x], AddressOf, a), sel) ==
      Pick(With(xs, AddressOf, a), sel) + (if x.address == a then sel(x) else [])
  {
    assert (xs + [x])[..|xs|] == xs;
    assert With(xs + [x], AddressOf, a) == With(xs, AddressOf, a) + (if x.address == a then [x] else []);
    PickAppend(With(xs, AddressOf, a), if x.address == a then [x] else [], sel);
    assert Pick([x], sel) == Pick([], sel) + sel(x);
  }

  /** Summing the contributions group by group gives every application's contribution. */
  lemma {:induction false} Partition(xs: seq<PlanningApplication>, order: seq<string>, sel: PlanningApplication -> seq<PlanningApplication>)
    requires forall i, j :: 0 <= i < j < |order| ==> order[i] != order[j]
    requires forall i :: 0 <= i < |xs| ==> xs[i].address in order
    ensures GroupSum(xs, order, sel) == multiset(Pick(xs, sel))
  {
    if |xs| == 0 {
      EmptyGroupSum(order, sel);
    } else {
      var init := xs[..|xs| - 1];
      var x := xs[|xs| - 1];
      Partition(init, order, sel);
      assert init + [x] == xs;
      GroupSumStep(init, x, order, sel);
    }
  }

  lemma {:induction false} EmptyGroupSum(order: seq<string>, sel: PlanningApplication -> seq<PlanningApplication>)
    ensures GroupSum([], order, sel) == multiset{}
  {
    if |order| > 0 {
      EmptyGroupSum(order[..|order| - 1], sel);
    }
  }

  /** A group of one address moves whole into the buildings exactly when it is matched. */
  lemma {:induction false} PickMoved(g: seq<PlanningApplication>, buildings: seq<Building>, apps: seq<PlanningApplication>, a: string)
    requires forall i :: 0 <= i < |g| ==> g[i].address == a
    ensures Pick(g, MoveSel(buildings, apps)) == if Matched(buildings, apps, a) then g else []
  {
    if |g| > 0 {
      var init := g[..|g| - 1];
      PickMoved(init, buildings, apps, a);
      assert g == init + [g[|g| - 1]];
    }
  }

  /** A group of one address is relocated to loc, the location of its first application, exactly when it is not matched. */
  lemma {:induction false} PickSettled(g: seq<PlanningApplication>, buildings: seq<Building>, apps: seq<PlanningApplication>, a: string, loc: FPoint)
    requires forall i :: 0 <= i < |g| ==> g[i].address == a
    requires |With(apps, AddressOf, a)| > 0 && With(apps, AddressOf, a)[0].location == loc
    ensures Pick(g, SettleSel(buildings, apps)) == if Matched(buildings, apps, a) then [] else Relocated(g, loc)
  {
    if |g| > 0 {
      var init := g[..|g| - 1];
      PickSettled(init, buildings, apps, a, loc);
      assert g[|g| - 1].address == a;
    }
  }

  /** The members of a group all have its address. */
  lemma GroupAddresses(apps: seq<PlanningApplication>, a: string)
    ensures var g := With(apps, AddressOf, a); forall i :: 0 <= i < |g| ==> g[i].address == a
  {
    var g := With(apps, AddressOf, a);
    forall i | 0 <= i < |g| ensures g[i].address == a {
      assert g[i] in g;
    }
  }

  /** Moving applications into one listed building adds them to the listed buildings' applications once. */
  lemma {:induction false} AppsAtUpdate(heads: map<FPoint, Building>, order: seq<FPoint>, loc: FPoint, extra: seq<PlanningApplication>)
    requires loc in heads && forall i, j :: 0 <= i < j < |order| ==> order[i] != order[j]
    ensures AppsAt(heads[loc := heads[loc].(planApps := heads[loc].planApps + extra)], order) ==
      AppsAt(heads, order) + (if loc in order then multiset(extra) else multiset{})
  {
    if |order| > 0 {
      var heads' := heads[loc := heads[loc].(planApps := heads[loc].planApps + extra)];
      var init := order[..|order| - 1];
      var last := order[|order| - 1];
      var before := if loc in init then multiset(extra) else multiset{};
      var here := if loc == last then multiset(extra) else multiset{};
      var own := if last in heads then multiset(heads[last].planApps) else multiset{};
      AppsAtUpdate(heads, init, loc, extra);
      LastListedOnce(order, loc);
      assert (if loc in order then multiset(extra) else multiset{}) == before + here;
      assert (if last in heads' then multiset(heads'[last].planApps) else multiset{}) == own + here by {
        if loc == last {
          assert heads'[last].planApps == heads[last].planApps + extra;
        }
      }
      calc {
        AppsAt(heads', order);
        AppsAt(heads', init) + (if last in heads' then multiset(heads'[last].planApps) else multiset{});
        AppsAt(heads, init) + before + (own + here);
        { Interleave(AppsAt(heads, init), before, own, here); }
        AppsAt(heads, init) + own + (before + here);
      }
    }
  }

  /** The placement of the first n address groups. */
  function PlacedPrefix(buildings: seq<Building>, apps: seq<PlanningApplication>, addrOrder: seq<string>, n: nat): Placement
    requires NamesMerge(buildings) && Lists(addrOrder, KeysOf(apps, AddressOf)) && n <= |addrOrder|
  {
    AddressGroupsNonEmpty(apps, addrOrder);
    PlaceAll(Placement(MergedBuildings(buildings), []), AddressGroups(apps), addrOrder, n)
  }

  /**
   * After the first n address groups: the buildings have gained the matched
   * groups' applications, and the queue holds the unmatched groups'
   * applications relocated.
   */
  lemma {:induction false} PlaceAllAccounts(buildings: seq<Building>, apps: seq<PlanningApplication>, headOrder: seq<FPoint>, addrOrder: seq<string>, n: nat)
    requires NamesMerge(buildings) && Lists(headOrder, KeysOf(buildings, LocationOf)) && Lists(addrOrder, KeysOf(apps, AddressOf)) && n <= |addrOrder|
    ensures var p := PlacedPrefix(buildings, apps, addrOrder, n);
      AppsAt(p.heads, headOrder) == AppsAt(MergedBuildings(buildings), headOrder) + GroupSum(apps, addrOrder[..n], MoveSel(buildings, apps)) &&
      multiset(p.devs) == GroupSum(apps, addrOrder[..n], SettleSel(buildings, apps))
  {
    if n > 0 {
      PlaceAllAccounts(buildings, apps, headOrder, addrOrder, n - 1);
      PlaceStep(buildings, apps, headOrder, addrOrder, n);
      GroupSumPrefix(apps, addrOrder, n, MoveSel(buildings, apps));
      GroupSumPrefix(apps, addrOrder, n, SettleSel(buildings, apps));
    }
  }

  lemma GroupSumPrefix(apps: seq<PlanningApplication>, order: seq<string>, n: nat, sel: PlanningApplication -> seq<PlanningApplication>)
    requires 0 < n <= |order|
    ensures GroupSum(apps, order[..n], sel) ==
      GroupSum(apps, order[..n - 1], sel) + multiset(Pick(With(apps, AddressOf, order[n - 1]), sel))
  {
    assert order[..n][..n - 1] == order[..n - 1];
  }

  /** Placing the n-th address group, as PlaceAllAccounts accounts it. */
  lemma PlaceStep(buildings: seq<Building>, apps: seq<PlanningApplication>, headOrder: seq<FPoint>, addrOrder: seq<string>, n: nat)
    requires NamesMerge(buildings) && Lists(headOrder, KeysOf(buildings, LocationOf)) && Lists(addrOrder, KeysOf(apps, AddressOf)) && 0 < n <= |addrOrder|
    ensures var p := PlacedPrefix(buildings, apps, addrOrder, n - 1);
      var q := PlacedPrefix(buildings, apps, addrOrder, n);
      var a := addrOrder[n - 1];
      AppsAt(q.heads, headOrder) == AppsAt(p.heads, headOrder) + multiset(Pick(With(apps, AddressOf, a), MoveSel(buildings, apps))) &&
      multiset(q.devs) == multiset(p.devs) + multiset(Pick(With(apps, AddressOf, a), SettleSel(buildings, apps)))
  {
    AddressGroupsNonEmpty(apps, addrOrder);
    var p := PlacedPrefix(buildings, apps, addrOrder, n - 1);
    var a := addrOrder[n - 1];
    var g := With(apps, AddressOf, a);
    assert AddressGroups(apps)[a] == g;
    assert PlacedPrefix(buildings, apps, addrOrder, n) == PlaceGroup(p, g);
    PlaceAllKeys(Placement(MergedBuildings(buildings), []), AddressGroups(apps), addrOrder, n - 1);
    PlaceGroupAccounts(buildings, apps, headOrder, a, p);
  }

  /** Placing the group of address a: its applications go either into the buildings or onto the queue. */
  lemma PlaceGroupAccounts(buildings: seq<Building>, apps: seq<PlanningApplication>, headOrder: seq<FPoint>, a: string, p: Placement)
    requires Lists(headOrder, KeysOf(buildings, LocationOf)) && p.heads.Keys == KeysOf(buildings, LocationOf)
    requires |With(apps, AddressOf, a)| > 0
    ensures var g := With(apps, AddressOf, a);
      var q := PlaceGroup(p, g);
      AppsAt(q.heads, headOrder) == AppsAt(p.heads, headOrder) + multiset(Pick(g, MoveSel(buildings, apps))) &&
      multiset(q.devs) == multiset(p.devs) + multiset(Pick(g, SettleSel(buildings, apps)))
  {
    var g := With(apps, AddressOf, a);
    GroupAddresses(apps, a);
    PickMoved(g, buildings, apps, a);
    PickSettled(g, buildings, apps, a, g[0].location);
    var loc := FirstMatch(p.heads.Keys, g, 0);
    if Found(loc) {
      AppsAtUpdate(p.heads, headOrder, loc, g);
    }
  }

  lemma {:induction false} AppsInHeads(heads: map<FPoint, Building>, order: seq<FPoint>)
    requires forall j :: 0 <= j < |order| ==> order[j] in heads
    ensures AppsIn(HeadsInOrder(heads, order)) == AppsAt(heads, order)
  {
    if |order| > 0 {
      var init := order[..|order| - 1];
      AppsInHeads(heads, init);
      assert HeadsInOrder(heads, order)[..|order| - 1] == HeadsInOrder(heads, init);
    }
  }

  lemma {:induction false} AppsInDevelopments(devs: seq<PlanningApplication>)
    ensures AppsIn(Developments(devs)) == multiset(devs)
  {
    if |devs| > 0 {
      var init := devs[..|devs| - 1];
      var last := devs[|devs| - 1];
      AppsInDevelopments(init);
      assert Developments(devs)[..|devs| - 1] == Developments(init);
      assert Developments(devs)[|devs| - 1].planApps == [last];
      assert devs == init + [last];
      assert multiset(devs) == multiset(init) + multiset([last]);
    }
  }

  lemma {:induction false} AppsInAppend(xs: seq<Building>, ys: seq<Building>)
    ensures AppsIn(xs + ys) == AppsIn(xs) + AppsIn(ys)
  {
    if |ys| > 0 {
      var init := ys[..|ys| - 1];
      AppsInAppend(xs, init);
      assert (xs + ys)[..|xs + ys| - 1] == xs + init;
    } else {
      assert xs + ys == xs;
    }
  }

  /** The queue ends up holding exactly the unmatched applications, each at its group's first location. */
  lemma DevelopmentsAreSettled(buildings: seq<Building>, apps: seq<PlanningApplication>, headOrder: seq<FPoint>, addrOrder: seq<string>)
    requires NamesMerge(buildings) && Lists(headOrder, KeysOf(buildings, LocationOf)) && Lists(addrOrder, KeysOf(apps, AddressOf))
    ensures multiset(Placed(buildings, apps, addrOrder).devs) == multiset(Settled(buildings, apps))
    ensures AppsAt(Placed(buildings, apps, addrOrder).heads, headOrder) ==
      AppsAt(MergedBuildings(buildings), headOrder) + multiset(MovedIn(buildings, apps))
  {
    PlaceAllAccounts(buildings, apps, headOrder, addrOrder, |addrOrder|);
    assert addrOrder[..|addrOrder|] == addrOrder;
    assert Placed(buildings, apps, addrOrder) == PlacedPrefix(buildings, apps, addrOrder, |addrOrder|);
    forall i | 0 <= i < |apps| ensures apps[i].address in addrOrder {
      assert AddressOf(apps[i]) in KeysOf(apps, AddressOf);
    }
    Partition(apps, addrOrder, MoveSel(buildings, apps));
    Partition(apps, addrOrder, SettleSel(buildings, apps));
  }

  /**
   * Every planning application appears exactly once in the result: in the
   * building its address group was matched to, or as its own development.
   * Besides them the result holds only the applications the buildings came with.
   */
  lemma EveryApplicationPlacedOnce(buildings: seq<Building>, apps: seq<PlanningApplication>, headOrder: seq<FPoint>, addrOrder: seq<string>)
    requires NamesMerge(buildings) && Lists(headOrder, KeysOf(buildings, LocationOf)) && Lists(addrOrder, KeysOf(apps, AddressOf))
    ensures AppsIn(Clustered(buildings, apps, headOrder, addrOrder)) ==
      AppsIn(HeadsInOrder(MergedBuildings(buildings), headOrder)) + multiset(MovedIn(buildings, apps)) + multiset(Settled(buildings, apps))
  {
    var placed := Placed(buildings, apps, addrOrder);
    ClusteredParts(buildings, apps, headOrder, addrOrder);
    DevelopmentsAreSettled(buildings, apps, headOrder, addrOrder);
    AppsInAppend(HeadsInOrder(placed.heads, headOrder), Developments(placed.devs));
    AppsInHeads(placed.heads, headOrder);
    AppsInHeads(MergedBuildings(buildings), headOrder);
    AppsInDevelopments(placed.devs);
  }

  /** Each application is either moved in or settled, never both. */
  lemma {:induction false} MovedOrSettled(buildings: seq<Building>, apps: seq<PlanningApplication>, xs: seq<PlanningApplication>)
    ensures |Pick(xs, MoveSel(buildings, apps))| + |Pick(xs, SettleSel(buildings, apps))| == |xs|
  {
    if |xs| > 0 {
      MovedOrSettled(buildings, apps, xs[..|xs| - 1]);
    }
  }

  /** An application is moved into a building exactly when its address group is matched. */
  lemma {:induction false} MovedInMembers(buildings: seq<Building>, apps: seq<PlanningApplication>, xs: seq<PlanningApplication>, y: PlanningApplication)
    ensures y in Pick(xs, MoveSel(buildings, apps)) <==> y in xs && Matched(buildings, apps, y.address)
  {
    if |xs| > 0 {
      var init := xs[..|xs| - 1];
      MovedInMembers(buildings, apps, init, y);
      assert xs == init + [xs[|xs| - 1]];
    }
  }

  /** A settled application is an unmatched application moved to its group's first location. */
  lemma {:induction false} SettledMembers(buildings: seq<Building>, apps: seq<PlanningApplication>, xs: seq<PlanningApplication>, y: PlanningApplication)
    requires y in Pick(xs, SettleSel(buildings, apps))
    ensures exists i :: (0 <= i < |xs| && !Matched(buildings, apps, xs[i].address) &&
      y == xs[i].(location := FirstLocation(apps, xs[i])))
  {
    var init := xs[..|xs| - 1];
    var x := xs[|xs| - 1];
    if y in Pick(init, SettleSel(buildings, apps)) {
      SettledMembers(buildings, apps, init, y);
      var i :| 0 <= i < |init| && !Matched(buildings, apps, init[i].address) &&
        y == init[i].(location := FirstLocation(apps, init[i]));
      assert xs[i] == init[i];
    } else {
      assert !Matched(buildings, apps, x.address) && y == x.(location := FirstLocation(apps, x));
    }
  }

  /**
   * Every building after the merged ones is a development made from an
   * application whose address group matched no building, placed at the
   * location of the first application with that address.
   */
  lemma DevelopmentsAreUnmatched(buildings: seq<Building>, apps: seq<PlanningApplication>, headOrder: seq<FPoint>, addrOrder: seq<string>, k: nat)
    requires NamesMerge(buildings) && Lists(headOrder, KeysOf(buildings, LocationOf)) && Lists(addrOrder, KeysOf(apps, AddressOf))
    requires |headOrder| <= k < |Clustered(buildings, apps, headOrder, addrOrder)|
    ensures var b := Clustered(buildings, apps, headOrder, addrOrder)[k];
      b.tob == Development && b.subunits == [] &&
      exists i :: (0 <= i < |apps| && !Matched(buildings, apps, apps[i].address) &&
        b.planApps == [apps[i].(location := FirstLocation(apps, apps[i]))] &&
        b.location == FirstLocation(apps, apps[i]) && b.name == apps[i].address)
  {
    var placed := Placed(buildings, apps, addrOrder);
    ClusteredParts(buildings, apps, headOrder, addrOrder);
    var d := k - |headOrder|;
    DevelopmentsFollow(buildings, apps, headOrder, addrOrder, d);
    DevelopmentsAreSettled(buildings, apps, headOrder, addrOrder);
    assert placed.devs[d] in multiset(Settled(buildings, apps));
    SettledMembers(buildings, apps, apps, placed.devs[d]);
  }

  /** The developments number the applications whose group matched no building. */
  lemma DevelopmentCount(buildings: seq<Building>, apps: seq<PlanningApplication>, headOrder: seq<FPoint>, addrOrder: seq<string>)
    requires NamesMerge(buildings) && Lists(headOrder, KeysOf(buildings, LocationOf)) && Lists(addrOrder, KeysOf(apps, AddressOf))
    ensures |Placed(buildings, apps, addrOrder).devs| == |apps| - |MovedIn(buildings, apps)|
  {
    DevelopmentsAreSettled(buildings, apps, headOrder, addrOrder);
    assert |multiset(Placed(buildings, apps, addrOrder).devs)| == |multiset(Settled(buildings, apps))|;
    MovedOrSettled(buildings, apps, apps);
  }

  /** An application in a building stays there while later groups are placed. */
  lemma {:induction false} PlaceAllKeepsApps(st: Placement, pgroups: map<string, seq<PlanningApplication>>, order: seq<string>, m: nat, n: nat, loc: FPoint, p: PlanningApplication)
    requires m <= n <= |order| && GroupsFor(pgroups, order)
    requires loc in PlaceAll(st, pgroups, order, m).heads && p in PlaceAll(st, pgroups, order, m).heads[loc].planApps
    ensures loc in PlaceAll(st, pgroups, order, n).heads && p in PlaceAll(st, pgroups, order, n).heads[loc].planApps
  {
    if m < n {
      PlaceAllKeepsApps(st, pgroups, order, m, n - 1, loc, p);
      var h := PlaceAll(st, pgroups, order, n - 1).heads;
      var g := pgroups[order[n - 1]];
      var found := FirstMatch(h.Keys, g, 0);
      if Found(found) && found == loc {
        assert p in h[loc].planApps + g;
      }
    }
  }

  /**
   * A matched address group is moved whole into the building at the first
   * location, in the group's order, that has a building.
   */
  lemma MatchedGroupMovesIn(buildings: seq<Building>, apps: seq<PlanningApplication>, headOrder: seq<FPoint>, addrOrder: seq<string>, a: string, i: nat)
    requires NamesMerge(buildings) && Lists(headOrder, KeysOf(buildings, LocationOf)) && Lists(addrOrder, KeysOf(apps, AddressOf))
    requires a in KeysOf(apps, AddressOf) && Matched(buildings, apps, a)
    requires i < |headOrder| && headOrder[i] == FirstMatch(KeysOf(buildings, LocationOf), With(apps, AddressOf, a), 0)
    ensures forall p :: p in With(apps, AddressOf, a) ==> p in Clustered(buildings, apps, headOrder, addrOrder)[i].planApps
  {
    var j :| 0 <= j < |addrOrder| && addrOrder[j] == a;
    ClusteredParts(buildings, apps, headOrder, addrOrder);
    HeadsInOrderAt(Placed(buildings, apps, addrOrder).heads, headOrder, i);
    assert Placed(buildings, apps, addrOrder) == PlacedPrefix(buildings, apps, addrOrder, |addrOrder|);
    forall p | p in With(apps, AddressOf, a) ensures p in Clustered(buildings, apps, headOrder, addrOrder)[i].planApps {
      GroupLands(buildings, apps, addrOrder, j, p);
    }
  }

  /** The members of the j-th matched group end up in the building at its first matching location. */
  lemma GroupLands(buildings: seq<Building>, apps: seq<PlanningApplication>, addrOrder: seq<string>, j: nat, p: PlanningApplication)
    requires NamesMerge(buildings) && Lists(addrOrder, KeysOf(apps, AddressOf)) && j < |addrOrder|
    requires Matched(buildings, apps, addrOrder[j]) && p in With(apps, AddressOf, addrOrder[j])
    ensures var loc := FirstMatch(KeysOf(buildings, LocationOf), With(apps, AddressOf, addrOrder[j]), 0);
      var h := PlacedPrefix(buildings, apps, addrOrder, |addrOrder|).heads;
      loc in h && p in h[loc].planApps
  {
    AddressGroupsNonEmpty(apps, addrOrder);
    var st := Placement(MergedBuildings(buildings), []);
    var pgroups := AddressGroups(apps);
    var g := With(apps, AddressOf, addrOrder[j]);
    var loc := FirstMatch(KeysOf(buildings, LocationOf), g, 0);
    assert pgroups[addrOrder[j]] == g;
    PlaceAllKeys(st, pgroups, addrOrder, j);
    assert PlaceAll(st, pgroups, addrOrder, j + 1) == PlaceGroup(PlaceAll(st, pgroups, addrOrder, j), g);
    assert p in PlaceAll(st, pgroups, addrOrder, j + 1).heads[loc].planApps;
    PlaceAllKeepsApps(st, pgroups, addrOrder, j + 1, |addrOrder|, loc, p);
  }
}
