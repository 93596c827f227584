/**
 * Buildings: addresses grouped into buildings, each with its subunits,
 * valuations and planning applications, and classified by the subunits'
 * use. Buildings are values here; an operation that updates a building in
 * place returns the updated building.
 */
module Buildings {
  import opened UtilHeader
  import opened Util

  /** The enum TypeOfBuilding, with the values 0 to 3 in this order. */
  datatype TypeOfBuilding = Commercial | Residential | Mixed | Development

  function TobValue(t: TypeOfBuilding): nat {
    match t
    case Commercial => 0
    case Residential => 1
    case Mixed => 2
    case Development => 3
  }

  /** The names table, indexed by the enum's value. */
  const TOB_TO_STR: seq<string> := ["Commercial", "Residential", "Mixed", "Development"]

  /** tob_to_string: the name of a building type. */
  function TobToString(t: TypeOfBuilding): string {
    TOB_TO_STR[TobValue(t)]
  }

  /** A map position, compared by exact equality. */
  datatype FPoint = FPoint(x: real, y: real)

  /** A valuation record; its contents play no part in the logic modelled here. */
  datatype Valuation = Valuation(record: string)

  /** A planning application: the fields the clustering reads. */
  datatype PlanningApplication = PlanningApplication(address: string, description: string, location: FPoint)

  datatype SubUnit = SubUnit(subBuildingName: string, buildingName: string, code: string,
                             description: string, isCommercial: bool)

  datatype Building = Building(name: string, street: string, town: string, postcode: string,
                               location: FPoint, subunits: seq<SubUnit>, valuations: seq<Valuation>,
                               tob: TypeOfBuilding, planApps: seq<PlanningApplication>)

  /** The use a subunit reports, as printed. */
  function UseName(u: SubUnit): string {
    if u.isCommercial then "Commercial" else "Residential"
  }

  /**
   * SubUnit::to_string: indentation, the sub-building name and ", " when
   * there is one, then building name, code, description and use, separated
   * by ", ".
   */
  function SubUnitToString(u: SubUnit, tablevel: nat): string {
    Tabs(tablevel)
      + (if u.subBuildingName != "" then u.subBuildingName + ", " else "")
      + u.buildingName + ", " + u.code + ", " + u.description + ", " + UseName(u)
  }

  /** The type a building's subunits give it: one use throughout, or mixed. */
  function TobOf(units: seq<SubUnit>): TypeOfBuilding
    requires |units| > 0
  {
    if forall i :: 0 <= i < |units| ==> units[i].isCommercial then Commercial
    else if forall i :: 0 <= i < |units| ==> !units[i].isCommercial then Residential
    else Mixed
  }

  /**
   * Building::set_tob: the first subunit's use, kept while every later
   * subunit agrees, MIXED at the first that does not. The code reads the
   * first subunit unconditionally, so it demands one.
   */
  method SetTob(b: Building) returns (r: Building)
    requires |b.subunits| > 0
    ensures r == b.(tob := TobOf(b.subunits))
  {
    var tob := if b.subunits[0].isCommercial then Commercial else Residential;
    var isCommercial := tob == Commercial;
    var i := 1;
    while i != |b.subunits|
      invariant 1 <= i <= |b.subunits|
      invariant forall k :: 0 <= k < i ==> b.subunits[k].isCommercial == isCommercial
    {
      if isCommercial != b.subunits[i].isCommercial {
        assert b.subunits[0].isCommercial != b.subunits[i].isCommercial;
        r := b.(tob := Mixed);
        return;
      }
      i := i + 1;
    }
    r := b.(tob := tob);
  }

  /** The name a merged building gets when its parts share no text. */
  const BUILDING_SHELL: string := "Building Shell"

  /**
   * combine_buildings: x takes over y's subunits and valuations after its
   * own, becomes MIXED when the types differ, and is renamed to the longest
   * common substring of the two names, or "Building Shell" when there is
   * none. Its address, location and planning applications stay.
   */
  function CombineBuildings(x: Building, y: Building): (r: Building)
    requires LcsInBounds(x.name, y.name)
    ensures r.subunits == x.subunits + y.subunits && r.valuations == x.valuations + y.valuations
    ensures r.street == x.street && r.town == x.town && r.postcode == x.postcode
    ensures r.location == x.location && r.planApps == x.planApps
    ensures r.name != ""
  {
    var tob := if x.tob != Mixed && x.tob != y.tob then Mixed else x.tob;
    var shared := Lcs(AsWritten, x.name, y.name);
    var name := if shared == "" then BUILDING_SHELL else shared;
    x.(subunits := x.subunits + y.subunits, valuations := x.valuations + y.valuations,
       tob := tob, name := name)
  }

  /**
   * make_development: a building made of one planning application, named
   * by its address, at its location, of type DEVELOPMENT; every other field
   * keeps its default.
   */
  function MakeDevelopment(p: PlanningApplication): (r: Building)
    ensures r.planApps == [p] && r.tob == Development
    ensures r.name == p.address && r.location == p.location
    ensures r.subunits == [] && r.valuations == []
  {
    Building(p.address, "", "", "", p.location, [], [], Development, [p])
  }
}

module BuildingsProperties {
  import opened UtilHeader
  import opened Util
  import opened UtilProperties
  import opened Buildings

  /** Each type has its own name: the names table has no repeats. */
  lemma TobToStringInjective(s: TypeOfBuilding, t: TypeOfBuilding)
    ensures TobToString(s) == TobToString(t) <==> s == t
  {
    assert TOB_TO_STR[0] != TOB_TO_STR[1] && TOB_TO_STR[0] != TOB_TO_STR[2] && TOB_TO_STR[0] != TOB_TO_STR[3];
    assert TOB_TO_STR[1] != TOB_TO_STR[2] && TOB_TO_STR[1] != TOB_TO_STR[3] && TOB_TO_STR[2] != TOB_TO_STR[3];
  }

  /** The subunit line starts with its indentation and ends with its use. */
  lemma SubUnitLineEnds(u: SubUnit, tablevel: nat)
    ensures var s := SubUnitToString(u, tablevel);
      |s| >= tablevel + |UseName(u)| && s[..tablevel] == Tabs(tablevel) && s[|s| - |UseName(u)|..] == UseName(u)
  {
    var s := SubUnitToString(u, tablevel);
    var middle := (if u.subBuildingName != "" then u.subBuildingName + ", " else "")
      + u.buildingName + ", " + u.code + ", " + u.description + ", ";
    assert s == Tabs(tablevel) + middle + UseName(u);
  }

  /** After the indentation comes the sub-building name and ", " exactly when there is one. */
  lemma SubUnitLineName(u: SubUnit, tablevel: nat)
    ensures var s := SubUnitToString(u, tablevel);
      var rest := u.buildingName + ", " + u.code + ", " + u.description + ", " + UseName(u);
      s[tablevel..] == if u.subBuildingName != "" then u.subBuildingName + ", " + rest else rest
  {
    var s := SubUnitToString(u, tablevel);
    var rest := u.buildingName + ", " + u.code + ", " + u.description + ", " + UseName(u);
    var named := if u.subBuildingName != "" then u.subBuildingName + ", " else "";
    assert s == Tabs(tablevel) + (named + rest);
  }

  /** A building is COMMERCIAL exactly when every subunit is commercial. */
  lemma TobOfCommercial(units: seq<SubUnit>)
    requires |units| > 0
    ensures TobOf(units) == Commercial <==> forall u :: u in units ==> u.isCommercial
  {
    if TobOf(units) != Commercial {
      var i :| 0 <= i < |units| && !units[i].isCommercial;
      assert units[i] in units;
    }
  }

  /** RESIDENTIAL exactly when no subunit is commercial; MIXED exactly when both uses occur. */
  lemma TobOfResidentialOrMixed(units: seq<SubUnit>)
    requires |units| > 0
    ensures TobOf(units) == Residential <==> forall u :: u in units ==> !u.isCommercial
    ensures TobOf(units) == Mixed <==> exists u, v :: u in units && v in units && u.isCommercial && !v.isCommercial
    ensures TobOf(units) != Development
  {
    assert units[0] in units;
    if forall u :: u in units ==> !u.isCommercial {
      assert !units[0].isCommercial;
      assert forall i :: 0 <= i < |units| ==> !units[i].isCommercial by {
        forall i | 0 <= i < |units| ensures !units[i].isCommercial { assert units[i] in units; }
      }
    } else {
      var v :| v in units && v.isCommercial;
    }
    if exists u, v :: u in units && v in units && u.isCommercial && !v.isCommercial {
      var u, v :| u in units && v in units && u.isCommercial && !v.isCommercial;
      var i :| 0 <= i < |units| && units[i] == u;
      var j :| 0 <= j < |units| && units[j] == v;
    }
    if TobOf(units) == Mixed {
      var i :| 0 <= i < |units| && !units[i].isCommercial;
      var j :| 0 <= j < |units| && units[j].isCommercial;
      assert units[j] in units && units[i] in units;
    }
  }

  /** combine_buildings' type: differing types give MIXED, MIXED stays, and otherwise x keeps its type. */
  lemma CombinedType(x: Building, y: Building)
    requires LcsInBounds(x.name, y.name)
    ensures x.tob == Mixed || x.tob != y.tob ==> CombineBuildings(x, y).tob == Mixed
    ensures x.tob == y.tob ==> CombineBuildings(x, y).tob == x.tob
  {
  }

  /**
   * The merged name is "Building Shell" or a non-empty substring of both
   * names; when the names share no character it is "Building Shell".
   */
  lemma CombinedName(x: Building, y: Building)
    requires LcsInBounds(x.name, y.name)
    ensures var r := CombineBuildings(x, y).name;
      r == BUILDING_SHELL || (r != "" && (exists p :: OccursAt(r, x.name, p)) && (exists q :: OccursAt(r, y.name, q)))
    ensures (forall p: nat, q: nat :: !CommonAt(x.name, y.name, p, q, 1)) ==> CombineBuildings(x, y).name == BUILDING_SHELL
  {
    var shared := Lcs(AsWritten, x.name, y.name);
    LcsIsCommon(AsWritten, x.name, y.name);
    if shared != "" {
      var p: nat :| OccursAt(shared, x.name, p);
      var q: nat :| OccursAt(shared, y.name, q);
      assert x.name[p..p + 1] == shared[..1] == y.name[q..q + 1];
      assert CommonAt(x.name, y.name, p, q, 1);
    }
  }

  /**
   * The name follows the table as written, not the longest common
   * substring: "xy" merged with "zzxy" is named "y", and two buildings both
   * named "a" merge into "Building Shell".
   */
  lemma CombinedNameAsWritten(x: Building, y: Building, u: Building, v: Building)
    requires x.name == "xy" && y.name == "zzxy" && u.name == "a" && v.name == "a"
    ensures CombineBuildings(x, y).name == "y"
    ensures CombineBuildings(u, v).name == BUILDING_SHELL
  {
    ShortRowZeroExample();
    BorderIgnoredExample();
  }
}
