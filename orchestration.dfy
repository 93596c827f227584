/**
 * The integer orchestration around the footprint engine: which tiles of the
 * 512 x 512 grid a set of cell-space points needs, how the tiles' shapes
 * are shifted into the centre tile's frame and grouped by osid into one
 * combined tile, and how each point is snapped to the centre of the first
 * shape that does not classify it OUTSIDE.
 *
 * The tile store is the map from grid position to the tile stored for it,
 * after every missing tile has been fetched; fetching, the database and the
 * float coordinate conversions are not part of this model.
 */
module Orchestration {
  import opened Wrappers
  import opened CppInt
  import opened BuildingShapeHeader
  import opened Enclosure
  import opened ShapeMerge

  /** Tiles are 512 cells wide and high. */
  const TILE_CELLS: int := 512

  // ---------------------------------------------------------------------
  // get_tile_row_col

  /**
   * The tile holding a cell-space point, relative to the converter's own
   * tile (tileRow, tileCol): `floorf(y / 512)` rows and `floorf(x / 512)`
   * columns away, computed exactly.
   */
  function TileRowCol(tileRow: int, tileCol: int, p: Point): GridPos {
    GridPos(tileRow + FloorDiv(p.y, TILE_CELLS), tileCol + FloorDiv(p.x, TILE_CELLS))
  }

  /** The point lies in the 512 x 512 cell block of the tile it is assigned to. */
  lemma TileRowColContains(tileRow: int, tileCol: int, p: Point)
    ensures var g := TileRowCol(tileRow, tileCol, p);
      && TILE_CELLS * (g.row - tileRow) <= p.y < TILE_CELLS * (g.row - tileRow + 1)
      && TILE_CELLS * (g.col - tileCol) <= p.x < TILE_CELLS * (g.col - tileCol + 1)
  {
  }

  /** Negative cells belong to the previous tile: floor, not truncation. */
  lemma TileRowColExample()
    ensures TileRowCol(21303, 14613, Point(-256, -256)) == GridPos(21302, 14612)
    ensures TileRowCol(21303, 14613, Point(511, 512)) == GridPos(21304, 14613)
  {
  }

  // ---------------------------------------------------------------------
  // The duplicate-free, order-preserving list of tile positions

  /** The first occurrence of each element, in order of first occurrence. */
  function Dedup<T(==)>(s: seq<T>): seq<T> {
    if |s| == 0 then []
    else
      var d := Dedup(s[..|s| - 1]);
      if s[|s| - 1] in d then d else d + [s[|s| - 1]]
  }

  /** The positions of a list of cells. */
  function CellPositions(tileRow: int, tileCol: int, cells: seq<Point>): (gs: seq<GridPos>)
    ensures |gs| == |cells|
  {
    seq(|cells|, i requires 0 <= i < |cells| => TileRowCol(tileRow, tileCol, cells[i]))
  }

  /** The loop of translate_points_to_building_centres that collects the grid positions. */
  method TilePositions(tileRow: int, tileCol: int, cells: seq<Point>) returns (positions: seq<GridPos>)
    ensures positions == Dedup(CellPositions(tileRow, tileCol, cells))
  {
    var seen: set<GridPos> := {};
    positions := [];
    ghost var gs := CellPositions(tileRow, tileCol, cells);
    var i := 0;
    while i < |cells|
      invariant 0 <= i <= |cells|
      invariant positions == Dedup(gs[..i])
      invariant forall g :: g in seen <==> g in positions
    {
      var gp := TileRowCol(tileRow, tileCol, cells[i]);
      assert gs[..i + 1][..i] == gs[..i];
      if gp !in seen {
        positions := positions + [gp];
        seen := seen + {gp};
      }
      i := i + 1;
    }
    assert gs[..i] == gs;
  }

  // ---------------------------------------------------------------------
  // get_combined_tile, first half: shift every stored shape into the frame
  // of the centre tile and index the shapes by osid

  /** The osid as the C++ code reads it: an unset field reads as "". */
  function OsidKey(b: BuildingShape): string {
    b.osid.GetOr("")
  }

  /** Even positions get the x shift, odd ones the y shift; a trailing odd integer is dropped. */
  function ShiftEdges(edges: seq<int>, dx: int, dy: int): (r: seq<int>)
    ensures |r| == |edges| / 2 * 2
  {
    seq(|edges| / 2 * 2, i requires 0 <= i < |edges| / 2 * 2 => edges[i] + (if i % 2 == 0 then dx else dy))
  }

  /** The shape as it enters the intermediate tile. */
  function ShiftShape(b: BuildingShape, dx: int, dy: int): BuildingShape
    requires |b.approxCentre| >= 2
  {
    BuildingShape(Some(OsidKey(b)), ShiftEdges(b.edges, dx, dy), [b.approxCentre[0] + dx, b.approxCentre[1] + dy])
  }

  /** One shape's edge loop: `for (i = 0; i + 1 < edges_size; i += 2)`. */
  method ShiftBuilding(b: BuildingShape, xShift: int, yShift: int) returns (added: BuildingShape)
    requires |b.approxCentre| >= 2
    ensures added == ShiftShape(b, xShift, yShift)
  {
    added := EmptyShape.(osid := Some(OsidKey(b)));
    added := added.(approxCentre := [b.approxCentre[0] + xShift, b.approxCentre[1] + yShift]);
    var edges: seq<int> := [];
    var i := 0;
    while i + 1 < |b.edges|
      invariant 0 <= i <= |b.edges| / 2 * 2 && i % 2 == 0
      invariant edges == ShiftEdges(b.edges[..i], xShift, yShift)
    {
      edges := edges + [b.edges[i] + xShift, b.edges[i + 1] + yShift];
      i := i + 2;
    }
    assert i == |b.edges| / 2 * 2;
    added := added.(edges := edges);
  }

  /** What the C++ code demands of the store: every requested tile is present and its shapes have centres. */
  predicate StoreCovers(store: map<GridPos, Tile>, positions: seq<GridPos>) {
    forall pos :: pos in positions ==>
      pos in store && forall b :: b in store[pos].shapes ==> |b.approxCentre| >= 2
  }

  function ShiftTile(t: Tile, dx: int, dy: int): (r: seq<BuildingShape>)
    requires forall b :: b in t.shapes ==> |b.approxCentre| >= 2
    ensures |r| == |t.shapes|
  {
    seq(|t.shapes|, i requires 0 <= i < |t.shapes| => ShiftShape(t.shapes[i], dx, dy))
  }

  /** The intermediate tile: every position's shapes, shifted, position after position. */
  function Intermediate(store: map<GridPos, Tile>, positions: seq<GridPos>, centreRow: int, centreCol: int): seq<BuildingShape>
    requires StoreCovers(store, positions)
  {
    if |positions| == 0 then []
    else
      var pos := positions[|positions| - 1];
      Intermediate(store, positions[..|positions| - 1], centreRow, centreCol) +
        ShiftTile(store[pos], (pos.col - centreCol) * TILE_CELLS, (pos.row - centreRow) * TILE_CELLS)
  }

  /** `osid_to_idxs` after the first n intermediate shapes: each osid to its indices in order. */
  function GroupsUpTo(inter: seq<BuildingShape>, n: nat): map<string, seq<nat>>
    requires n <= |inter|
  {
    if n == 0 then map[]
    else
      var m := GroupsUpTo(inter, n - 1);
      var key := OsidKey(inter[n - 1]);
      m[key := (if key in m then m[key] else []) + [n - 1]]
  }

  function Groups(inter: seq<BuildingShape>): map<string, seq<nat>> {
    GroupsUpTo(inter, |inter|)
  }

  /**
   * The first half of get_combined_tile: shift and collect the shapes,
   * and index them by osid.
   */
  method ShiftAndGroup(store: map<GridPos, Tile>, positions: seq<GridPos>, centreRow: int, centreCol: int)
    returns (inter: seq<BuildingShape>, osidToIdxs: map<string, seq<nat>>)
    requires StoreCovers(store, positions)
    ensures inter == Intermediate(store, positions, centreRow, centreCol)
    ensures osidToIdxs == Groups(inter)
  {
    inter := [];
    osidToIdxs := map[];
    var p := 0;
    while p < |positions|
      invariant 0 <= p <= |positions|
      invariant StoreCovers(store, positions[..p])
      invariant inter == Intermediate(store, positions[..p], centreRow, centreCol)
      invariant osidToIdxs == Groups(inter)
    {
      var pos := positions[p];
      assert positions[..p + 1][..p] == positions[..p];
      inter, osidToIdxs := ShiftTileInto(store[pos], (pos.col - centreCol) * TILE_CELLS, (pos.row - centreRow) * TILE_CELLS, inter, osidToIdxs);
      p := p + 1;
    }
    assert positions[..p] == positions;
  }

  /** The loop over one tile's shapes: append each shifted shape and record its index under its osid. */
  method ShiftTileInto(t: Tile, xShift: int, yShift: int, inter0: seq<BuildingShape>, groups0: map<string, seq<nat>>)
    returns (inter: seq<BuildingShape>, osidToIdxs: map<string, seq<nat>>)
    requires forall b :: b in t.shapes ==> |b.approxCentre| >= 2
    requires groups0 == Groups(inter0)
    ensures inter == inter0 + ShiftTile(t, xShift, yShift)
    ensures osidToIdxs == Groups(inter)
  {
    inter, osidToIdxs := inter0, groups0;
    var i := 0;
    while i < |t.shapes|
      invariant 0 <= i <= |t.shapes|
      invariant inter == inter0 + ShiftTile(t, xShift, yShift)[..i]
      invariant osidToIdxs == Groups(inter)
    {
      var added := ShiftBuilding(t.shapes[i], xShift, yShift);
      inter := inter + [added];
      var idx := |inter| - 1;
      var key := OsidKey(added);
      osidToIdxs := osidToIdxs[key := (if key in osidToIdxs then osidToIdxs[key] else []) + [idx]];
      GroupsAppend(inter[..idx], added);
      assert inter[..idx] + [added] == inter;
      assert ShiftTile(t, xShift, yShift)[..i + 1] == ShiftTile(t, xShift, yShift)[..i] + [added];
      i := i + 1;
    }
    assert ShiftTile(t, xShift, yShift)[..i] == ShiftTile(t, xShift, yShift);
  }

  /** Appending a shape records its index under its osid. */
  lemma GroupsAppend(inter: seq<BuildingShape>, b: BuildingShape)
    ensures var m := Groups(inter);
      Groups(inter + [b]) == m[OsidKey(b) := (if OsidKey(b) in m then m[OsidKey(b)] else []) + [|inter|]]
  {
    GroupsUpToPrefix(inter + [b], |inter|);
    assert (inter + [b])[..|inter|] == inter;
  }

  /** The groups of a prefix only depend on the prefix. */
  lemma {:induction false} GroupsUpToPrefix(s: seq<BuildingShape>, n: nat)
    requires n <= |s|
    ensures GroupsUpTo(s, n) == Groups(s[..n])
  {
    GroupsUpToAgree(s, s[..n], n);
  }

  lemma {:induction false} GroupsUpToAgree(s: seq<BuildingShape>, t: seq<BuildingShape>, n: nat)
    requires n <= |s| && n <= |t| && s[..n] == t[..n]
    ensures GroupsUpTo(s, n) == GroupsUpTo(t, n)
  {
    if n > 0 {
      assert s[..n - 1] == s[..n][..n - 1];
      assert t[..n - 1] == t[..n][..n - 1];
      assert s[n - 1] == s[..n][n - 1];
      assert t[n - 1] == t[..n][n - 1];
      GroupsUpToAgree(s, t, n - 1);
    }
  }

  // ---------------------------------------------------------------------
  // get_combined_tile, second half: one shape per osid

  /** The shapes of one osid group, in index order. */
  function GroupShapes(inter: seq<BuildingShape>, idxs: seq<nat>): (r: seq<BuildingShape>)
    requires forall j :: 0 <= j < |idxs| ==> idxs[j] < |inter|
    ensures |r| == |idxs|
  {
    seq(|idxs|, j requires 0 <= j < |idxs| => inter[idxs[j]])
  }

  /**
   * What the C++ code demands of the groups: indices in range, at least one
   * per group, and every group of two or more fragments mergeable.
   */
  predicate GroupsMergeable(inter: seq<BuildingShape>, groups: map<string, seq<nat>>) {
    forall key :: key in groups ==>
      && |groups[key]| >= 1
      && (forall j :: 0 <= j < |groups[key]| ==> groups[key][j] < |inter|)
      && (|groups[key]| > 1 ==> Mergeable(GroupShapes(inter, groups[key])))
  }

  /** A single fragment passes through unchanged; several are combined. */
  function GroupResult(inter: seq<BuildingShape>, idxs: seq<nat>): BuildingShape
    requires |idxs| >= 1 && forall j :: 0 <= j < |idxs| ==> idxs[j] < |inter|
    requires |idxs| > 1 ==> Mergeable(GroupShapes(inter, idxs))
  {
    if |idxs| == 1 then inter[idxs[0]] else Combined(GroupShapes(inter, idxs))
  }

  /**
   * The loop over `osid_to_idxs`, whose iteration order is unspecified: the
   * ghost `order` records the order that was taken. One result shape per key.
   */
  method CombineGroups(inter: seq<BuildingShape>, osidToIdxs: map<string, seq<nat>>)
    returns (res: Tile, ghost order: seq<string>)
    requires GroupsMergeable(inter, osidToIdxs)
    ensures |order| == |res.shapes| && (forall k :: k in order <==> k in osidToIdxs)
    ensures forall i, j :: 0 <= i < j < |order| ==> order[i] != order[j]
    ensures forall i :: 0 <= i < |order| ==>
      order[i] in osidToIdxs && res.shapes[i] == GroupResult(inter, osidToIdxs[order[i]])
  {
    var shapes: seq<BuildingShape> := [];
    var remaining := osidToIdxs.Keys;
    order := [];
    while remaining != {}
      invariant remaining <= osidToIdxs.Keys
      invariant |order| == |shapes|
      invariant forall k :: k in order <==> k in osidToIdxs && k !in remaining
      invariant forall i, j :: 0 <= i < j < |order| ==> order[i] != order[j]
      invariant forall i :: 0 <= i < |order| ==>
        order[i] in osidToIdxs && shapes[i] == GroupResult(inter, osidToIdxs[order[i]])
      decreases remaining
    {
      var key :| key in remaining;
      var idxs := osidToIdxs[key];
      var added;
      if |idxs| == 1 {
        added := inter[idxs[0]];
      } else {
        var buildings := GroupShapes(inter, idxs);
        added := CombineBuildingShapes(buildings);
      }
      shapes := shapes + [added];
      order := order + [key];
      remaining := remaining - {key};
    }
    res := Tile(shapes);
  }

  /** get_combined_tile over a store that already holds every requested tile. */
  method GetCombinedTile(store: map<GridPos, Tile>, positions: seq<GridPos>, centreRow: int, centreCol: int)
    returns (res: Tile, ghost order: seq<string>)
    requires StoreCovers(store, positions)
    requires GroupsMergeable(Intermediate(store, positions, centreRow, centreCol),
                             Groups(Intermediate(store, positions, centreRow, centreCol)))
    ensures var inter := Intermediate(store, positions, centreRow, centreCol);
      && |order| == |res.shapes|
      && (forall k :: k in order <==> k in Groups(inter))
      && (forall i, j :: 0 <= i < j < |order| ==> order[i] != order[j])
      && (forall i :: 0 <= i < |order| ==>
            order[i] in Groups(inter) && res.shapes[i] == GroupResult(inter, Groups(inter)[order[i]]))
  {
    var inter, osidToIdxs := ShiftAndGroup(store, positions, centreRow, centreCol);
    res, order := CombineGroups(inter, osidToIdxs);
  }

  // ---------------------------------------------------------------------
  // translate_point_to_building_centre

  /**
   * What the C++ code demands when classifying p against the shapes from
   * index i on: each shape it reaches has whole edges and the penalties the
   * classifier looks up, and the first shape that does not classify p
   * OUTSIDE has a centre to read.
   */
  predicate TranslateDefined(p: Point, shapes: seq<BuildingShape>, i: nat)
    decreases |shapes| - i
  {
    i >= |shapes| ||
    (&& |shapes[i].edges| % 4 == 0
     && PenaltiesReached(p, shapes[i], PenaltyMapOf(shapes[i].edges))
     && if EnclosureOf(p, shapes[i], PenaltyMapOf(shapes[i].edges)) == Outside
        then TranslateDefined(p, shapes, i + 1)
        else |shapes[i].approxCentre| >= 2)
  }

  /** Where p ends up: the centre of the first shape from index i on that does not classify it OUTSIDE. */
  function Translated(p: Point, shapes: seq<BuildingShape>, i: nat): Point
    requires TranslateDefined(p, shapes, i)
    decreases |shapes| - i
  {
    if i >= |shapes| then p
    else if EnclosureOf(p, shapes[i], PenaltyMapOf(shapes[i].edges)) == Outside then Translated(p, shapes, i + 1)
    else Point(shapes[i].approxCentre[0], shapes[i].approxCentre[1])
  }

  method TranslatePointToBuildingCentre(p: Point, tile: Tile, penMaps: seq<PenaltyMap>) returns (q: Point)
    requires penMaps == PenaltyMaps(tile.shapes)
    requires TranslateDefined(p, tile.shapes, 0)
    ensures q == Translated(p, tile.shapes, 0)
  {
    var i := 0;
    while i != |tile.shapes|
      invariant 0 <= i <= |tile.shapes|
      invariant TranslateDefined(p, tile.shapes, i)
      invariant Translated(p, tile.shapes, i) == Translated(p, tile.shapes, 0)
    {
      var shape := tile.shapes[i];
      var encType := GetEnclosureType(p, shape, penMaps[i]);
      if encType == Outside {
        i := i + 1;
        continue;
      }
      return Point(shape.approxCentre[0], shape.approxCentre[1]);
    }
    return p;
  }

  /**
   * The loop of translate_points_to_building_centres that overwrites each
   * cell-space point in place.
   */
  method TranslatePoints(cells: array<Point>, tile: Tile, penMaps: seq<PenaltyMap>)
    requires penMaps == PenaltyMaps(tile.shapes)
    requires forall i :: 0 <= i < cells.Length ==> TranslateDefined(cells[i], tile.shapes, 0)
    modifies cells
    ensures forall i :: 0 <= i < cells.Length ==> cells[i] == Translated(old(cells[i]), tile.shapes, 0)
  {
    var i := 0;
    while i < cells.Length
      invariant 0 <= i <= cells.Length
      invariant forall j :: 0 <= j < i ==> cells[j] == Translated(old(cells[j]), tile.shapes, 0)
      invariant forall j :: i <= j < cells.Length ==> cells[j] == old(cells[j])
    {
      cells[i] := TranslatePointToBuildingCentre(cells[i], tile, penMaps);
      i := i + 1;
    }
  }
}

/** What the orchestration promises about tile positions, shifting, grouping and snapping. */
module OrchestrationProperties {
  import opened Wrappers
  import opened BuildingShapeHeader
  import opened Enclosure
  import opened ShapeMerge
  import opened Orchestration
  import opened EnclosureProperties
  import opened ShapeMergeProperties

  // ---------------------------------------------------------------------
  // Dedup: the same positions, each once, in order of first occurrence

  lemma {:induction false} DedupMembers<T>(s: seq<T>)
    ensures forall x :: x in Dedup(s) <==> x in s
  {
    if |s| > 0 {
      DedupMembers(s[..|s| - 1]);
      assert s == s[..|s| - 1] + [s[|s| - 1]];
    }
  }

  lemma {:induction false} DedupDistinct<T>(s: seq<T>)
    ensures forall i, j :: 0 <= i < j < |Dedup(s)| ==> Dedup(s)[i] != Dedup(s)[j]
  {
    if |s| > 0 {
      DedupDistinct(s[..|s| - 1]);
    }
  }

  /** The index of the first occurrence of x in s. */
  function FirstIndex<T(==)>(s: seq<T>, x: T): (r: nat)
    requires x in s
    ensures r < |s| && s[r] == x && x !in s[..r]
  {
    if s[0] == x then 0
    else
      var r := 1 + FirstIndex(s[1..], x);
      assert s[..r] == [s[0]] + s[1..][..r - 1];
      r
  }

  lemma {:induction false} FirstIndexOfPrefix<T>(s: seq<T>, x: T, y: T)
    requires y in s
    ensures FirstIndex(s + [x], y) == FirstIndex(s, y)
  {
    assert (s + [x])[0] == s[0];
    if s[0] != y {
      assert (s + [x])[1..] == s[1..] + [x];
      FirstIndexOfPrefix(s[1..], x, y);
    }
  }

  /** Positions already seen keep their first index when another one is appended. */
  lemma DedupFirstIndexStable<T>(t: seq<T>, x: T)
    ensures forall k :: 0 <= k < |Dedup(t)| ==>
      Dedup(t)[k] in t && FirstIndex(t + [x], Dedup(t)[k]) == FirstIndex(t, Dedup(t)[k])
  {
    DedupMembers(t);
    forall k | 0 <= k < |Dedup(t)|
      ensures Dedup(t)[k] in t && FirstIndex(t + [x], Dedup(t)[k]) == FirstIndex(t, Dedup(t)[k])
    {
      assert Dedup(t)[k] in Dedup(t);
      FirstIndexOfPrefix(t, x, Dedup(t)[k]);
    }
  }

  /** Dedup keeps the order in which positions first occur. */
  lemma {:induction false} DedupFirstOccurrenceOrder<T>(s: seq<T>)
    ensures forall i, j :: 0 <= i < j < |Dedup(s)| ==>
      Dedup(s)[i] in s && Dedup(s)[j] in s && FirstIndex(s, Dedup(s)[i]) < FirstIndex(s, Dedup(s)[j])
  {
    if |s| > 0 {
      var t := s[..|s| - 1];
      var x := s[|s| - 1];
      assert s == t + [x];
      DedupFirstOccurrenceOrder(t);
      DedupFirstIndexStable(t, x);
      var d := Dedup(t);
      if x !in d {
        DedupMembers(t);
        assert FirstIndex(s, x) == |t|;
        assert Dedup(s) == d + [x];
        forall i, j | 0 <= i < j < |Dedup(s)|
          ensures Dedup(s)[i] in s && Dedup(s)[j] in s && FirstIndex(s, Dedup(s)[i]) < FirstIndex(s, Dedup(s)[j])
        {
          assert Dedup(s)[i] == d[i];
          if j < |d| {
            assert Dedup(s)[j] == d[j];
          }
        }
      } else {
        assert Dedup(s) == d;
        forall i, j | 0 <= i < j < |d|
          ensures d[i] in s && d[j] in s && FirstIndex(s, d[i]) < FirstIndex(s, d[j])
        {
        }
      }
    } else {
      assert Dedup(s) == [];
    }
  }

  /** The tile positions a set of cells needs: each cell's tile, each tile once. */
  lemma TilePositionsCover(tileRow: int, tileCol: int, cells: seq<Point>)
    ensures var ps := Dedup(CellPositions(tileRow, tileCol, cells));
      && (forall i :: 0 <= i < |cells| ==> TileRowCol(tileRow, tileCol, cells[i]) in ps)
      && (forall g :: g in ps ==> exists i :: 0 <= i < |cells| && TileRowCol(tileRow, tileCol, cells[i]) == g)
      && (forall i, j :: 0 <= i < j < |ps| ==> ps[i] != ps[j])
  {
    var gs := CellPositions(tileRow, tileCol, cells);
    DedupMembers(gs);
    DedupDistinct(gs);
    forall i | 0 <= i < |cells|
      ensures TileRowCol(tileRow, tileCol, cells[i]) in Dedup(gs)
    {
      assert gs[i] == TileRowCol(tileRow, tileCol, cells[i]);
    }
  }

  // ---------------------------------------------------------------------
  // Shifting

  /** Shifting back by the opposite offsets restores an even-length edge list. */
  lemma ShiftEdgesRoundTrip(edges: seq<int>, dx: int, dy: int)
    requires |edges| % 2 == 0
    ensures ShiftEdges(ShiftEdges(edges, dx, dy), -dx, -dy) == edges
  {
  }

  /** Every edge of a whole-edge shape moves by (dx, dy). */
  lemma ShiftedEdgeAt(edges: seq<int>, dx: int, dy: int, k: nat)
    requires |edges| % 4 == 0 && k < EdgeCount(edges)
    ensures EdgeCount(ShiftEdges(edges, dx, dy)) == EdgeCount(edges)
    ensures var (a, b) := EdgeAt(edges, k);
      EdgeAt(ShiftEdges(edges, dx, dy), k) == (Point(a.x + dx, a.y + dy), Point(b.x + dx, b.y + dy))
  {
    WholeEdgesEven(|edges|);
    var s := ShiftEdges(edges, dx, dy);
    assert |s| == |edges|;
    var j := 4 * k;
    EdgeParities(k);
    ShiftedAt(edges, dx, dy, j);
    ShiftedAt(edges, dx, dy, j + 1);
    ShiftedAt(edges, dx, dy, j + 2);
    ShiftedAt(edges, dx, dy, j + 3);
  }

  lemma ShiftedAt(edges: seq<int>, dx: int, dy: int, i: nat)
    requires i < |edges| / 2 * 2
    ensures ShiftEdges(edges, dx, dy)[i] == edges[i] + (if i % 2 == 0 then dx else dy)
  {
  }

  /** The coordinates of edge k sit at 4k .. 4k + 3: x, y, x, y. */
  lemma EdgeParities(k: nat)
    ensures (4 * k) % 2 == 0 && (4 * k + 1) % 2 == 1 && (4 * k + 2) % 2 == 0 && (4 * k + 3) % 2 == 1
  {
    Parities(2 * k);
    Parities(2 * k + 1);
  }

  /** An even number and its successor. */
  lemma Parities(q: int)
    ensures (2 * q) % 2 == 0 && (2 * q + 1) % 2 == 1
  {
  }

  lemma WholeEdgesEven(n: nat)
    requires n % 4 == 0
    ensures n / 2 * 2 == n && n / 4 == n / 2 / 2
  {
    var q := n / 4;
    assert n == 4 * q;
    assert n / 2 == 2 * q;
    assert n / 2 / 2 == q;
  }

  /** A shifted shape keeps its osid (as read), its shape, and stays valid. */
  lemma ShiftShapeProps(b: BuildingShape, dx: int, dy: int)
    requires |b.approxCentre| >= 2
    ensures var r := ShiftShape(b, dx, dy);
      && r.osid == Some(OsidKey(b)) && OsidKey(r) == OsidKey(b)
      && IsBuildingShapeValid(r)
      && r.approxCentre == [b.approxCentre[0] + dx, b.approxCentre[1] + dy]
      && (|b.edges| % 2 == 0 ==> ShiftEdges(r.edges, -dx, -dy) == b.edges)
  {
  }

  /** Every intermediate shape carries its osid as read, so the osid is always set. */
  lemma {:induction false} IntermediateOsids(store: map<GridPos, Tile>, positions: seq<GridPos>, centreRow: int, centreCol: int)
    requires StoreCovers(store, positions)
    ensures forall i :: 0 <= i < |Intermediate(store, positions, centreRow, centreCol)| ==>
      var b := Intermediate(store, positions, centreRow, centreCol)[i];
      b.osid == Some(OsidKey(b)) && IsBuildingShapeValid(b)
  {
    if |positions| > 0 {
      var init := positions[..|positions| - 1];
      assert StoreCovers(store, init) by {
        forall pos | pos in init ensures pos in positions {
        }
      }
      IntermediateOsids(store, init, centreRow, centreCol);
      var pos := positions[|positions| - 1];
      var t := store[pos];
      var dx, dy := (pos.col - centreCol) * TILE_CELLS, (pos.row - centreRow) * TILE_CELLS;
      forall k | 0 <= k < |t.shapes|
        ensures ShiftTile(t, dx, dy)[k].osid == Some(OsidKey(ShiftTile(t, dx, dy)[k]))
        ensures IsBuildingShapeValid(ShiftTile(t, dx, dy)[k])
      {
        assert t.shapes[k] in t.shapes;
        ShiftShapeProps(t.shapes[k], dx, dy);
      }
      var inter0 := Intermediate(store, init, centreRow, centreCol);
      var inter := Intermediate(store, positions, centreRow, centreCol);
      assert inter == inter0 + ShiftTile(t, dx, dy);
      forall i | 0 <= i < |inter|
        ensures inter[i].osid == Some(OsidKey(inter[i])) && IsBuildingShapeValid(inter[i])
      {
        if i >= |inter0| {
          assert inter[i] == ShiftTile(t, dx, dy)[i - |inter0|];
        } else {
          assert inter[i] == inter0[i];
        }
      }
    }
  }

  // ---------------------------------------------------------------------
  // Grouping

  /** The groups partition the indices by osid, each group in ascending order. */
  lemma GroupsPartition(s: seq<BuildingShape>, n: nat)
    requires n <= |s|
    ensures forall key :: key in GroupsUpTo(s, n) <==> exists i :: 0 <= i < n && OsidKey(s[i]) == key
    ensures forall key :: key in GroupsUpTo(s, n) ==>
      var g := GroupsUpTo(s, n)[key];
      && |g| >= 1
      && (forall j :: 0 <= j < |g| ==> g[j] < n && OsidKey(s[g[j]]) == key)
      && (forall j, j' :: 0 <= j < j' < |g| ==> g[j] < g[j'])
      && (forall i :: 0 <= i < n && OsidKey(s[i]) == key ==> i in g)
  {
    GroupsKeys(s, n);
    GroupsMembers(s, n);
    GroupsAscending(s, n);
    GroupsComplete(s, n);
  }

  lemma {:induction false} GroupsKeys(s: seq<BuildingShape>, n: nat)
    requires n <= |s|
    ensures forall key :: key in GroupsUpTo(s, n) <==> exists i :: 0 <= i < n && OsidKey(s[i]) == key
  {
    if n > 0 {
      GroupsKeys(s, n - 1);
    }
  }

  lemma {:induction false} GroupsMembers(s: seq<BuildingShape>, n: nat)
    requires n <= |s|
    ensures forall key :: key in GroupsUpTo(s, n) ==>
      |GroupsUpTo(s, n)[key]| >= 1 &&
      forall j :: 0 <= j < |GroupsUpTo(s, n)[key]| ==>
        GroupsUpTo(s, n)[key][j] < n && OsidKey(s[GroupsUpTo(s, n)[key][j]]) == key
  {
    if n > 0 {
      GroupsMembers(s, n - 1);
    }
  }

  lemma {:induction false} GroupsAscending(s: seq<BuildingShape>, n: nat)
    requires n <= |s|
    ensures forall key :: key in GroupsUpTo(s, n) ==>
      forall j, j' :: 0 <= j < j' < |GroupsUpTo(s, n)[key]| ==> GroupsUpTo(s, n)[key][j] < GroupsUpTo(s, n)[key][j']
  {
    if n > 0 {
      GroupsAscending(s, n - 1);
      GroupsMembers(s, n - 1);
    }
  }

  lemma {:induction false} GroupsComplete(s: seq<BuildingShape>, n: nat)
    requires n <= |s|
    ensures forall i :: 0 <= i < n ==> OsidKey(s[i]) in GroupsUpTo(s, n) && i in GroupsUpTo(s, n)[OsidKey(s[i])]
  {
    if n > 0 {
      GroupsComplete(s, n - 1);
    }
  }

  /** A group's result carries the group's osid. */
  lemma GroupResultOsid(inter: seq<BuildingShape>, key: string)
    requires forall i :: 0 <= i < |inter| ==> inter[i].osid == Some(OsidKey(inter[i]))
    requires GroupsMergeable(inter, Groups(inter)) && key in Groups(inter)
    ensures GroupResult(inter, Groups(inter)[key]).osid == Some(key)
  {
    GroupsPartition(inter, |inter|);
    var g := Groups(inter)[key];
    if |g| > 1 {
      CombinedShape(GroupShapes(inter, g));
    }
  }

  /**
   * The combined tile holds exactly one shape per osid of the requested
   * tiles: the osids are pairwise distinct and are exactly the stored ones.
   */
  lemma OneShapePerOsid(store: map<GridPos, Tile>, positions: seq<GridPos>, centreRow: int, centreCol: int,
                        res: Tile, order: seq<string>)
    requires StoreCovers(store, positions)
    requires var inter := Intermediate(store, positions, centreRow, centreCol);
      && GroupsMergeable(inter, Groups(inter))
      && |order| == |res.shapes|
      && (forall k :: k in order <==> k in Groups(inter))
      && (forall i, j :: 0 <= i < j < |order| ==> order[i] != order[j])
      && (forall i :: 0 <= i < |order| ==>
            order[i] in Groups(inter) && res.shapes[i] == GroupResult(inter, Groups(inter)[order[i]]))
    ensures forall i :: 0 <= i < |res.shapes| ==> res.shapes[i].osid.Some?
    ensures forall i, j :: 0 <= i < j < |res.shapes| ==> res.shapes[i].osid != res.shapes[j].osid
    ensures var inter := Intermediate(store, positions, centreRow, centreCol);
      forall k :: (exists i :: 0 <= i < |res.shapes| && res.shapes[i].osid == Some(k)) <==>
                  (exists i :: 0 <= i < |inter| && OsidKey(inter[i]) == k)
  {
    var inter := Intermediate(store, positions, centreRow, centreCol);
    IntermediateOsids(store, positions, centreRow, centreCol);
    GroupsPartition(inter, |inter|);
    forall i | 0 <= i < |res.shapes|
      ensures res.shapes[i].osid == Some(order[i])
    {
      GroupResultOsid(inter, order[i]);
    }
    forall k | exists i :: 0 <= i < |inter| && OsidKey(inter[i]) == k
      ensures exists i :: 0 <= i < |res.shapes| && res.shapes[i].osid == Some(k)
    {
      assert k in order;
      var i :| 0 <= i < |order| && order[i] == k;
      assert res.shapes[i].osid == Some(k);
    }
  }

  // ---------------------------------------------------------------------
  // Snapping

  /** Shape i is reached and classifies p OUTSIDE. */
  predicate OutsideAt(p: Point, shapes: seq<BuildingShape>, i: nat)
    requires i < |shapes|
  {
    && |shapes[i].edges| % 4 == 0
    && PenaltiesReached(p, shapes[i], PenaltyMapOf(shapes[i].edges))
    && EnclosureOf(p, shapes[i], PenaltyMapOf(shapes[i].edges)) == Outside
  }

  /**
   * First match: a point OUTSIDE every shape stays where it is; otherwise it
   * moves to the centre of the first shape that does not classify it OUTSIDE.
   */
  lemma {:induction false} TranslatedIsFirstMatch(p: Point, shapes: seq<BuildingShape>, i0: nat)
    requires TranslateDefined(p, shapes, i0)
    ensures (forall i :: i0 <= i < |shapes| ==> OutsideAt(p, shapes, i)) ==> Translated(p, shapes, i0) == p
    ensures forall i :: i0 <= i < |shapes| && (forall j :: i0 <= j < i ==> OutsideAt(p, shapes, j)) && !OutsideAt(p, shapes, i) ==>
      |shapes[i].approxCentre| >= 2 && Translated(p, shapes, i0) == Point(shapes[i].approxCentre[0], shapes[i].approxCentre[1])
  {
    if i0 < |shapes| && forall i :: i0 <= i < |shapes| ==> OutsideAt(p, shapes, i) {
      PassedOn(p, shapes, i0, |shapes|);
      assert Translated(p, shapes, |shapes|) == p;
    }
    forall i | i0 <= i < |shapes| && (forall j :: i0 <= j < i ==> OutsideAt(p, shapes, j)) && !OutsideAt(p, shapes, i)
      ensures |shapes[i].approxCentre| >= 2 && Translated(p, shapes, i0) == Point(shapes[i].approxCentre[0], shapes[i].approxCentre[1])
    {
      FirstInsideWins(p, shapes, i0, i);
    }
  }

  /** A shape that does not classify p OUTSIDE, after shapes that all do, takes p to its centre. */
  lemma FirstInsideWins(p: Point, shapes: seq<BuildingShape>, i0: nat, i: nat)
    requires TranslateDefined(p, shapes, i0)
    requires i0 <= i < |shapes|
    requires forall j :: i0 <= j < i ==> OutsideAt(p, shapes, j)
    requires !OutsideAt(p, shapes, i)
    ensures |shapes[i].approxCentre| >= 2 && Translated(p, shapes, i0) == Point(shapes[i].approxCentre[0], shapes[i].approxCentre[1])
  {
    PassedOn(p, shapes, i0, i);
    TranslatedStops(p, shapes, i);
  }

  /** Shapes that all classify p OUTSIDE pass it on unchanged. */
  lemma {:induction false} PassedOn(p: Point, shapes: seq<BuildingShape>, i0: nat, i: nat)
    requires TranslateDefined(p, shapes, i0)
    requires i0 <= i <= |shapes|
    requires forall j :: i0 <= j < i ==> OutsideAt(p, shapes, j)
    ensures TranslateDefined(p, shapes, i) && Translated(p, shapes, i0) == Translated(p, shapes, i)
    decreases i - i0
  {
    if i0 < i {
      assert TranslateDefined(p, shapes, i0 + 1) && Translated(p, shapes, i0) == Translated(p, shapes, i0 + 1) by {
        assert OutsideAt(p, shapes, i0);
        TranslatedPasses(p, shapes, i0);
      }
      PassedOn(p, shapes, i0 + 1, i);
    }
  }

  /** A shape that classifies p OUTSIDE passes it on to the next shape. */
  lemma TranslatedPasses(p: Point, shapes: seq<BuildingShape>, i: nat)
    requires TranslateDefined(p, shapes, i) && i < |shapes| && OutsideAt(p, shapes, i)
    ensures TranslateDefined(p, shapes, i + 1) && Translated(p, shapes, i) == Translated(p, shapes, i + 1)
  {
  }

  /** A shape that does not classify p OUTSIDE takes it to its centre. */
  lemma TranslatedStops(p: Point, shapes: seq<BuildingShape>, i: nat)
    requires TranslateDefined(p, shapes, i) && i < |shapes| && !OutsideAt(p, shapes, i)
    ensures |shapes[i].approxCentre| >= 2 && Translated(p, shapes, i) == Point(shapes[i].approxCentre[0], shapes[i].approxCentre[1])
  {
  }

  /** Snapping only ever yields p itself or a shape's centre. */
  lemma {:induction false} TranslatedIsACentre(p: Point, shapes: seq<BuildingShape>, i0: nat)
    requires TranslateDefined(p, shapes, i0)
    ensures var q := Translated(p, shapes, i0);
      q == p ||
      exists i :: i0 <= i < |shapes| && |shapes[i].approxCentre| >= 2 && q == Point(shapes[i].approxCentre[0], shapes[i].approxCentre[1])
    decreases |shapes| - i0
  {
    if i0 < |shapes| {
      if OutsideAt(p, shapes, i0) {
        TranslatedPasses(p, shapes, i0);
        TranslatedIsACentre(p, shapes, i0 + 1);
      } else {
        TranslatedStops(p, shapes, i0);
      }
    }
  }

  /** A corner of the square snaps to its centre; a point past the corner stays put. */
  lemma SquareTileSnapping(h: int)
    requires h >= 1
    ensures TranslateDefined(Point(2 * h, 2 * h), [Square(h)], 0)
    ensures Translated(Point(2 * h, 2 * h), [Square(h)], 0) == Point(h, h)
    ensures TranslateDefined(Point(2 * h + 1, 2 * h + 1), [Square(h)], 0)
    ensures Translated(Point(2 * h + 1, 2 * h + 1), [Square(h)], 0) == Point(2 * h + 1, 2 * h + 1)
  {
    var pen := PenaltyMapOf(Square(h).edges);
    SquareCornerOnEdge(h, pen);
    SquareFarPointOutside(h, pen);
    assert TranslateDefined(Point(2 * h + 1, 2 * h + 1), [Square(h)], 1);
  }
}
