/**
 * combine_building_shapes: the fragments of one building (the same osid,
 * split across tiles) are merged by keeping only the edges whose midpoint
 * lies INSIDE none of the fragments; the merged centre is the midpoint of
 * the kept edges' bounding box.
 */
module ShapeMerge {
  import opened Wrappers
  import opened CppInt
  import opened BuildingShapeHeader
  import opened Enclosure
  import TileDecoder

  /** The edges of a flat edge list, in order. */
  function EdgeList(edges: seq<int>): (es: seq<EdgeKey>)
    ensures |es| == EdgeCount(edges)
    ensures forall k :: 0 <= k < |es| ==> es[k] == EdgeAt(edges, k)
  {
    seq(EdgeCount(edges), k requires 0 <= k < EdgeCount(edges) => EdgeAt(edges, k))
  }

  /** Every fragment's edges, fragment after fragment. */
  function AllEdges(shapes: seq<BuildingShape>): seq<EdgeKey> {
    if |shapes| == 0 then []
    else AllEdges(shapes[..|shapes| - 1]) + EdgeList(shapes[|shapes| - 1].edges)
  }

  /** The penalty maps of all fragments, computed once (`std::transform` over edge_to_penalty_map). */
  function PenaltyMaps(shapes: seq<BuildingShape>): (pms: seq<PenaltyMap>)
    ensures |pms| == |shapes|
  {
    seq(|shapes|, j requires 0 <= j < |shapes| => PenaltyMapOf(shapes[j].edges))
  }

  /** Every fragment's penalty map has what classifying point m against it looks up. */
  predicate PenaltiesReachedAll(m: Point, shapes: seq<BuildingShape>) {
    forall j :: 0 <= j < |shapes| ==> PenaltiesReached(m, shapes[j], PenaltyMapOf(shapes[j].edges))
  }

  predicate WholeEdges(shapes: seq<BuildingShape>) {
    forall j :: 0 <= j < |shapes| ==> |shapes[j].edges| % 4 == 0
  }

  /**
   * What the C++ code demands: at least one fragment (its osid is read),
   * whole edges, and no penalty lookup that throws while any edge midpoint
   * is classified.
   */
  predicate Mergeable(shapes: seq<BuildingShape>) {
    && |shapes| >= 1
    && WholeEdges(shapes)
    && (forall e :: e in AllEdges(shapes) ==> PenaltiesReachedAll(Midpoint(e), shapes))
  }

  /** The point is INSIDE none of the fragments: an edge with this midpoint is a boundary edge. */
  predicate InsideNone(m: Point, shapes: seq<BuildingShape>)
    requires WholeEdges(shapes) && PenaltiesReachedAll(m, shapes)
  {
    forall j :: 0 <= j < |shapes| ==> EnclosureOf(m, shapes[j], PenaltyMapOf(shapes[j].edges)) != Inside
  }

  /** The boundary edges among es, in order. */
  function KeptEdges(es: seq<EdgeKey>, shapes: seq<BuildingShape>): (ks: seq<EdgeKey>)
    requires WholeEdges(shapes)
    requires forall e :: e in es ==> PenaltiesReachedAll(Midpoint(e), shapes)
    ensures |ks| <= |es|
  {
    if |es| == 0 then []
    else
      var e := es[|es| - 1];
      var rest := KeptEdges(es[..|es| - 1], shapes);
      if InsideNone(Midpoint(e), shapes) then rest + [e] else rest
  }

  /** A flat edge list from edges. */
  function Flatten(es: seq<EdgeKey>): (r: seq<int>)
    ensures |r| == 4 * |es|
  {
    if |es| == 0 then []
    else
      var (a, b) := es[|es| - 1];
      Flatten(es[..|es| - 1]) + [a.x, a.y, b.x, b.y]
  }

  /** The running bounding box, with INT_MAX / INT_MIN sentinels. */
  datatype Box = Box(minX: int, minY: int, maxX: int, maxY: int)

  const NoBox: Box := Box(INT_MAX, INT_MAX, INT_MIN, INT_MIN)

  function BoxAdd(b: Box, e: EdgeKey): Box {
    var (p, q) := e;
    Box(Min(b.minX, Min(p.x, q.x)), Min(b.minY, Min(p.y, q.y)),
        Max(b.maxX, Max(p.x, q.x)), Max(b.maxY, Max(p.y, q.y)))
  }

  function BoxOf(es: seq<EdgeKey>): Box {
    if |es| == 0 then NoBox else BoxAdd(BoxOf(es[..|es| - 1]), es[|es| - 1])
  }

  /** `(min + max) / 2` per axis, with 32-bit addition and truncating division. */
  function BoxCentre(b: Box): seq<int> {
    [TileDecoder.MidValue(b.minX, b.maxX), TileDecoder.MidValue(b.minY, b.maxY)]
  }

  /** combine_building_shapes as a function of the fragments. */
  function Combined(shapes: seq<BuildingShape>): BuildingShape
    requires Mergeable(shapes)
  {
    var kept := KeptEdges(AllEdges(shapes), shapes);
    BuildingShape(shapes[0].osid, Flatten(kept), BoxCentre(BoxOf(kept)))
  }

  // ---------------------------------------------------------------------
  // The merge as documented: the seam two fragments share is interior too.
  // combine_building_shapes keeps the seam two fragments share whenever its
  // midpoint is EDGE, not INSIDE, in both: always for a vertical seam, and
  // for a horizontal seam such as the wall between two stacked squares. The
  // definition below also drops every edge that two fragments have, which is
  // what the documented merge of two half squares into one square needs.

  /** The fragment has edge e, in either direction. */
  predicate HasEdge(shape: BuildingShape, e: EdgeKey) {
    e in EdgeList(shape.edges) || (e.1, e.0) in EdgeList(shape.edges)
  }

  /** Two different fragments both have e: it is a seam between them. */
  predicate Seam(e: EdgeKey, shapes: seq<BuildingShape>) {
    exists i, j :: 0 <= i < j < |shapes| && HasEdge(shapes[i], e) && HasEdge(shapes[j], e)
  }

  /** The boundary edges among es that are no seam, in order. */
  function OuterEdges(es: seq<EdgeKey>, shapes: seq<BuildingShape>): (ks: seq<EdgeKey>)
    requires WholeEdges(shapes)
    requires forall e :: e in es ==> PenaltiesReachedAll(Midpoint(e), shapes)
    ensures |ks| <= |es|
  {
    if |es| == 0 then []
    else
      var e := es[|es| - 1];
      var rest := OuterEdges(es[..|es| - 1], shapes);
      if InsideNone(Midpoint(e), shapes) && !Seam(e, shapes) then rest + [e] else rest
  }

  /** The merge with seams dropped; otherwise as combine_building_shapes. */
  function CombinedIntended(shapes: seq<BuildingShape>): BuildingShape
    requires Mergeable(shapes)
  {
    var kept := OuterEdges(AllEdges(shapes), shapes);
    BuildingShape(shapes[0].osid, Flatten(kept), BoxCentre(BoxOf(kept)))
  }

  // ---------------------------------------------------------------------
  // The C++ code's loops

  /** `std::transform(shapes, edge_to_penalty_map)`. */
  method ComputePenaltyMaps(shapes: seq<BuildingShape>) returns (pms: seq<PenaltyMap>)
    ensures pms == PenaltyMaps(shapes)
  {
    pms := [];
    var i := 0;
    while i < |shapes|
      invariant 0 <= i <= |shapes|
      invariant pms == PenaltyMaps(shapes[..i])
    {
      var m := EdgeToPenaltyMap(shapes[i]);
      pms := pms + [m];
      i := i + 1;
    }
    assert shapes[..i] == shapes;
  }

  /** The innermost loop: classify the midpoint against every fragment; any INSIDE rules the edge out. */
  method IsBoundaryEdge(mid: Point, shapes: seq<BuildingShape>, pms: seq<PenaltyMap>) returns (isBoundary: bool)
    requires WholeEdges(shapes) && PenaltiesReachedAll(mid, shapes)
    requires pms == PenaltyMaps(shapes)
    ensures isBoundary == InsideNone(mid, shapes)
  {
    isBoundary := true;
    var j := 0;
    while j != |shapes|
      invariant 0 <= j <= |shapes|
      invariant isBoundary == forall i :: 0 <= i < j ==> EnclosureOf(mid, shapes[i], PenaltyMapOf(shapes[i].edges)) != Inside
    {
      var encType := GetEnclosureType(mid, shapes[j], pms[j]);
      if encType == Inside {
        isBoundary := false;
      }
      j := j + 1;
    }
  }

  /**
   * The loop over one fragment's edges: append each boundary edge and grow
   * the box by its endpoints.
   */
  method KeepFragmentEdges(shape: BuildingShape, shapes: seq<BuildingShape>, pms: seq<PenaltyMap>,
                           ghost done: seq<EdgeKey>, edges0: seq<int>, box0: Box)
    returns (edges: seq<int>, box: Box)
    requires WholeEdges(shapes) && pms == PenaltyMaps(shapes) && |shape.edges| % 4 == 0
    requires forall e :: e in done + EdgeList(shape.edges) ==> PenaltiesReachedAll(Midpoint(e), shapes)
    requires edges0 == Flatten(KeptEdges(done, shapes)) && box0 == BoxOf(KeptEdges(done, shapes))
    ensures edges == Flatten(KeptEdges(done + EdgeList(shape.edges), shapes))
    ensures box == BoxOf(KeptEdges(done + EdgeList(shape.edges), shapes))
  {
    edges, box := edges0, box0;
    ghost var list := EdgeList(shape.edges);
    ghost var k := 0;
    var n := 0;
    assert done + list[..0] == done;
    assert |shape.edges| == 4 * |list|;
    while n != |shape.edges|
      invariant 0 <= k <= |list| && n == 4 * k
      invariant forall e :: e in done + list[..k] ==> PenaltiesReachedAll(Midpoint(e), shapes)
      invariant edges == Flatten(KeptEdges(done + list[..k], shapes))
      invariant box == BoxOf(KeptEdges(done + list[..k], shapes))
      decreases |shape.edges| - n
    {
      assert k < |list|;
      var x1, y1, x2, y2 := shape.edges[n], shape.edges[n + 1], shape.edges[n + 2], shape.edges[n + 3];
      ghost var e := list[k];
      EdgeListAt(shape.edges, k, n);
      ghost var before := done + list[..k];
      ghost var next := k + 1;
      PrefixStep(done, list, k, next, shapes);
      var mid := Midpoint((Point(x1, y1), Point(x2, y2)));
      var isBoundary := IsBoundaryEdge(mid, shapes, pms);
      KeptStep(before, e, shapes);
      ghost var kept := KeptEdges(before + [e], shapes);
      if isBoundary {
        edges := edges + [x1, y1, x2, y2];
        box := Box(Min(box.minX, Min(x1, x2)), Min(box.minY, Min(y1, y2)),
                   Max(box.maxX, Max(x1, x2)), Max(box.maxY, Max(y1, y2)));
        assert edges == Flatten(kept);
        assert box == BoxOf(kept);
      } else {
        assert kept == KeptEdges(before, shapes);
      }
      n, k := n + 4, next;
    }
    assert list[..k] == list;
  }

  /** The k-th listed edge is the four integers from index n = 4k on. */
  lemma EdgeListAt(edges: seq<int>, k: nat, n: nat)
    requires k < EdgeCount(edges) && n == 4 * k
    ensures EdgeList(edges)[k] == (Point(edges[n], edges[n + 1]), Point(edges[n + 2], edges[n + 3]))
  {
  }

  lemma PrefixStep(done: seq<EdgeKey>, list: seq<EdgeKey>, k: nat, next: nat, shapes: seq<BuildingShape>)
    requires k < |list| && next == k + 1
    requires forall e :: e in done + list ==> PenaltiesReachedAll(Midpoint(e), shapes)
    ensures done + list[..next] == (done + list[..k]) + [list[k]]
    ensures forall e :: e in done + list[..next] ==> PenaltiesReachedAll(Midpoint(e), shapes)
  {
    assert list[..next] == list[..k] + [list[k]];
    forall e | e in done + list[..next]
      ensures e in done + list
    {
      if e !in done {
        assert e in list[..next];
      }
    }
  }

  /** Keeping one more edge: the flat list and the box grow by it exactly when it is a boundary edge. */
  lemma KeptStep(es: seq<EdgeKey>, e: EdgeKey, shapes: seq<BuildingShape>)
    requires WholeEdges(shapes)
    requires forall f :: f in es + [e] ==> PenaltiesReachedAll(Midpoint(f), shapes)
    ensures var kept := KeptEdges(es, shapes);
      if InsideNone(Midpoint(e), shapes) then
        && KeptEdges(es + [e], shapes) == kept + [e]
        && Flatten(KeptEdges(es + [e], shapes)) == Flatten(kept) + [e.0.x, e.0.y, e.1.x, e.1.y]
        && BoxOf(KeptEdges(es + [e], shapes)) == BoxAdd(BoxOf(kept), e)
      else KeptEdges(es + [e], shapes) == kept
  {
    assert (es + [e])[..|es|] == es;
    var kept := KeptEdges(es, shapes);
    assert (kept + [e])[..|kept|] == kept;
  }

  /** combine_building_shapes: `res` starts as a fresh shape. */
  method CombineBuildingShapes(shapes: seq<BuildingShape>) returns (res: BuildingShape)
    requires Mergeable(shapes)
    ensures res == Combined(shapes)
  {
    res := EmptyShape.(osid := shapes[0].osid);
    var box := NoBox;
    var pms := ComputePenaltyMaps(shapes);
    var edges: seq<int> := [];
    var s := 0;
    while s < |shapes|
      invariant 0 <= s <= |shapes|
      invariant forall e :: e in AllEdges(shapes[..s]) ==> e in AllEdges(shapes)
      invariant edges == Flatten(KeptEdges(AllEdges(shapes[..s]), shapes))
      invariant box == BoxOf(KeptEdges(AllEdges(shapes[..s]), shapes))
    {
      AllEdgesPrefix(shapes, s);
      edges, box := KeepFragmentEdges(shapes[s], shapes, pms, AllEdges(shapes[..s]), edges, box);
      AllEdgesSubset(shapes, s + 1);
      s := s + 1;
    }
    assert shapes[..s] == shapes;
    res := res.(edges := edges, approxCentre := [TileDecoder.MidValue(box.minX, box.maxX), TileDecoder.MidValue(box.minY, box.maxY)]);
  }

  /** The edges of the first s + 1 fragments extend those of the first s, and all are among the fragments' edges. */
  lemma AllEdgesPrefix(shapes: seq<BuildingShape>, s: nat)
    requires s < |shapes|
    ensures AllEdges(shapes[..s + 1]) == AllEdges(shapes[..s]) + EdgeList(shapes[s].edges)
    ensures forall e :: e in AllEdges(shapes[..s + 1]) ==> e in AllEdges(shapes)
  {
    assert shapes[..s + 1][..s] == shapes[..s];
    AllEdgesSubset(shapes, s + 1);
  }

  lemma {:induction false} AllEdgesSubset(shapes: seq<BuildingShape>, s: nat)
    requires s <= |shapes|
    ensures forall e :: e in AllEdges(shapes[..s]) ==> e in AllEdges(shapes)
    decreases |shapes| - s
  {
    if s < |shapes| {
      AllEdgesSubset(shapes, s + 1);
      assert shapes[..s + 1][..s] == shapes[..s];
    } else {
      assert shapes[..s] == shapes;
    }
  }
}

/** Properties of the merge. */
module ShapeMergeProperties {
  import opened Wrappers
  import opened CppInt
  import opened BuildingShapeHeader
  import opened Enclosure
  import opened EnclosureProperties
  import opened ShapeMerge
  import TileDecoder

  /** An edge is kept exactly when it is among the candidates and its midpoint is INSIDE no fragment. */
  lemma {:induction false} KeptEdgesMembers(es: seq<EdgeKey>, shapes: seq<BuildingShape>, e: EdgeKey)
    requires WholeEdges(shapes)
    requires forall f :: f in es ==> PenaltiesReachedAll(Midpoint(f), shapes)
    ensures e in KeptEdges(es, shapes) <==> e in es && InsideNone(Midpoint(e), shapes)
  {
    if |es| > 0 {
      var init := es[..|es| - 1];
      assert es == init + [es[|es| - 1]];
      KeptEdgesMembers(init, shapes, e);
    }
  }

  /** The candidates are exactly the fragments' edges. */
  lemma {:induction false} AllEdgesMembers(shapes: seq<BuildingShape>, e: EdgeKey)
    ensures e in AllEdges(shapes) <==>
      exists j, k :: 0 <= j < |shapes| && 0 <= k < EdgeCount(shapes[j].edges) && EdgeAt(shapes[j].edges, k) == e
  {
    if |shapes| > 0 {
      var init := shapes[..|shapes| - 1];
      AllEdgesMembers(init, e);
      var last := |shapes| - 1;
      if e in EdgeList(shapes[last].edges) {
        var k :| 0 <= k < |EdgeList(shapes[last].edges)| && EdgeList(shapes[last].edges)[k] == e;
        assert EdgeAt(shapes[last].edges, k) == e;
      }
      if exists j, k :: 0 <= j < |shapes| && 0 <= k < EdgeCount(shapes[j].edges) && EdgeAt(shapes[j].edges, k) == e {
        var j, k :| 0 <= j < |shapes| && 0 <= k < EdgeCount(shapes[j].edges) && EdgeAt(shapes[j].edges, k) == e;
        if j < last {
          assert init[j] == shapes[j];
        } else {
          assert EdgeList(shapes[last].edges)[k] == e;
        }
      }
    }
  }

  /** Reading a flat list back as edges gives the edges it was made from. */
  lemma {:induction false} EdgeListOfFlatten(es: seq<EdgeKey>)
    ensures EdgeList(Flatten(es)) == es
  {
    if |es| > 0 {
      var init := es[..|es| - 1];
      EdgeListOfFlatten(init);
      var flat := Flatten(es);
      assert flat[..4 * |init|] == Flatten(init);
      forall k | 0 <= k < |es|
        ensures EdgeAt(flat, k) == es[k]
      {
        if k < |init| {
          assert EdgeAt(Flatten(init), k) == init[k];
        }
      }
    }
  }

  /** A flat list of whole edges is rebuilt from its edges. */
  lemma {:induction false} FlattenOfEdgeList(edges: seq<int>)
    requires |edges| % 4 == 0
    ensures Flatten(EdgeList(edges)) == edges
    decreases |edges|
  {
    if |edges| > 0 {
      var init := edges[..|edges| - 4];
      FlattenOfEdgeList(init);
      var es := EdgeList(edges);
      assert es[..|es| - 1] == EdgeList(init);
    }
  }

  /**
   * The merged shape: the first fragment's osid, a two-entry centre, and as
   * its edges exactly the fragments' edges whose midpoint is INSIDE none of
   * the fragments, in fragment-then-edge order.
   */
  lemma CombinedShape(shapes: seq<BuildingShape>)
    requires Mergeable(shapes)
    ensures var r := Combined(shapes);
      && r.osid == shapes[0].osid
      && IsBuildingShapeValid(r)
      && |r.edges| % 4 == 0
      && EdgeList(r.edges) == KeptEdges(AllEdges(shapes), shapes)
      && forall e :: e in EdgeList(r.edges) <==> e in AllEdges(shapes) && InsideNone(Midpoint(e), shapes)
  {
    var kept := KeptEdges(AllEdges(shapes), shapes);
    EdgeListOfFlatten(kept);
    forall e
      ensures e in kept <==> e in AllEdges(shapes) && InsideNone(Midpoint(e), shapes)
    {
      KeptEdgesMembers(AllEdges(shapes), shapes, e);
    }
  }

  /** Nothing kept: the box keeps its sentinels and INT_MAX + INT_MIN = -1 halves to 0. */
  lemma NothingKeptCentre(shapes: seq<BuildingShape>)
    requires Mergeable(shapes) && KeptEdges(AllEdges(shapes), shapes) == []
    ensures Combined(shapes) == BuildingShape(shapes[0].osid, [], [0, 0])
  {
    assert TileDecoder.MidValue(INT_MAX, INT_MIN) == 0;
  }

  predicate EndpointsInt32(es: seq<EdgeKey>) {
    forall e :: e in es ==> IsInt32(e.0.x) && IsInt32(e.0.y) && IsInt32(e.1.x) && IsInt32(e.1.y)
  }

  /** The box bounds every endpoint of the edges. */
  lemma {:induction false} BoxBoundsEndpoints(es: seq<EdgeKey>, e: EdgeKey)
    requires e in es
    ensures var b := BoxOf(es);
      b.minX <= Min(e.0.x, e.1.x) && b.minY <= Min(e.0.y, e.1.y) &&
      b.maxX >= Max(e.0.x, e.1.x) && b.maxY >= Max(e.0.y, e.1.y)
  {
    var init := es[..|es| - 1];
    if e != es[|es| - 1] {
      assert es == init + [es[|es| - 1]];
      BoxBoundsEndpoints(init, e);
    }
  }

  /** With 32-bit endpoints, each bound of a non-empty box is attained by some endpoint. */
  lemma {:induction false} BoxIsTight(es: seq<EdgeKey>)
    requires |es| > 0 && EndpointsInt32(es)
    ensures var b := BoxOf(es);
      && (exists e :: e in es && b.minX == Min(e.0.x, e.1.x))
      && (exists e :: e in es && b.minY == Min(e.0.y, e.1.y))
      && (exists e :: e in es && b.maxX == Max(e.0.x, e.1.x))
      && (exists e :: e in es && b.maxY == Max(e.0.y, e.1.y))
  {
    var init := es[..|es| - 1];
    var last := es[|es| - 1];
    assert last in es;
    if |init| > 0 {
      assert forall e :: e in init ==> e in es;
      BoxIsTight(init);
    }
  }

  /**
   * A vertical edge that every fragment has (in either direction) is always
   * kept: its midpoint lies on that edge, which makes every fragment answer
   * EDGE rather than INSIDE. Two fragments that share a vertical interior
   * edge therefore keep it in the merged shape.
   */
  lemma SharedVerticalEdgeKept(shapes: seq<BuildingShape>, e: EdgeKey)
    requires WholeEdges(shapes) && IsVertical(e)
    requires PenaltiesReachedAll(Midpoint(e), shapes)
    requires forall j :: 0 <= j < |shapes| ==>
      exists k :: 0 <= k < EdgeCount(shapes[j].edges) && (EdgeAt(shapes[j].edges, k) == e || EdgeAt(shapes[j].edges, k) == (e.1, e.0))
    ensures InsideNone(Midpoint(e), shapes)
  {
    var m := Midpoint(e);
    MidpointOfVerticalEdge(e);
    forall j | 0 <= j < |shapes|
      ensures EnclosureOf(m, shapes[j], PenaltyMapOf(shapes[j].edges)) == OnEdge
    {
      var k :| 0 <= k < EdgeCount(shapes[j].edges) && (EdgeAt(shapes[j].edges, k) == e || EdgeAt(shapes[j].edges, k) == (e.1, e.0));
      PointOnVerticalEdge(m, shapes[j], PenaltyMapOf(shapes[j].edges), k);
    }
  }

  /** An edge is kept by the intended merge exactly when it is a boundary edge and no seam. */
  lemma {:induction false} OuterEdgesMembers(es: seq<EdgeKey>, shapes: seq<BuildingShape>, e: EdgeKey)
    requires WholeEdges(shapes)
    requires forall f :: f in es ==> PenaltiesReachedAll(Midpoint(f), shapes)
    ensures e in OuterEdges(es, shapes) <==> e in es && InsideNone(Midpoint(e), shapes) && !Seam(e, shapes)
  {
    if |es| > 0 {
      var init := es[..|es| - 1];
      assert es == init + [es[|es| - 1]];
      OuterEdgesMembers(init, shapes, e);
    }
  }

  /**
   * The intended merge: the first fragment's osid, a two-entry centre, and
   * exactly the fragments' edges that are INSIDE no fragment and no seam;
   * off the seams it keeps what combine_building_shapes keeps.
   */
  lemma {:induction false} CombinedIntendedShape(shapes: seq<BuildingShape>)
    requires Mergeable(shapes)
    ensures var r := CombinedIntended(shapes);
      && r.osid == shapes[0].osid
      && IsBuildingShapeValid(r)
      && (forall e :: e in EdgeList(r.edges) <==> e in AllEdges(shapes) && InsideNone(Midpoint(e), shapes) && !Seam(e, shapes))
      && (forall e :: !Seam(e, shapes) ==> (e in EdgeList(r.edges) <==> e in EdgeList(Combined(shapes).edges)))
  {
    var kept := OuterEdges(AllEdges(shapes), shapes);
    EdgeListOfFlatten(kept);
    CombinedShape(shapes);
    forall e
      ensures e in kept <==> e in AllEdges(shapes) && InsideNone(Midpoint(e), shapes) && !Seam(e, shapes)
    {
      OuterEdgesMembers(AllEdges(shapes), shapes, e);
    }
  }

  /** A fragment that has e in either direction has it at some edge index. */
  lemma {:induction false} HasEdgeAt(shape: BuildingShape, e: EdgeKey)
    requires HasEdge(shape, e)
    ensures exists k :: 0 <= k < EdgeCount(shape.edges) && (EdgeAt(shape.edges, k) == e || EdgeAt(shape.edges, k) == (e.1, e.0))
  {
    var es := EdgeList(shape.edges);
    var k :| 0 <= k < |es| && (es[k] == e || es[k] == (e.1, e.0));
    assert EdgeAt(shape.edges, k) == es[k];
  }

  /**
   * Two fragments sharing a vertical seam: combine_building_shapes keeps the
   * seam in the merged outline, the intended merge drops it.
   */
  lemma {:induction false} VerticalSeamKept(shapes: seq<BuildingShape>, e: EdgeKey)
    requires Mergeable(shapes) && |shapes| == 2 && IsVertical(e) && e in AllEdges(shapes)
    requires HasEdge(shapes[0], e) && HasEdge(shapes[1], e)
    ensures e in EdgeList(Combined(shapes).edges)
    ensures e !in EdgeList(CombinedIntended(shapes).edges)
  {
    HasEdgeAt(shapes[0], e);
    HasEdgeAt(shapes[1], e);
    SharedVerticalEdgeKept(shapes, e);
    SeamKept(shapes, e);
  }

  /**
   * Any seam whose midpoint is INSIDE neither fragment, vertical or not:
   * combine_building_shapes keeps it, the intended merge drops it.
   */
  lemma SeamKept(shapes: seq<BuildingShape>, e: EdgeKey)
    requires Mergeable(shapes) && |shapes| == 2 && e in AllEdges(shapes)
    requires HasEdge(shapes[0], e) && HasEdge(shapes[1], e)
    requires InsideNone(Midpoint(e), shapes)
    ensures e in EdgeList(Combined(shapes).edges)
    ensures e !in EdgeList(CombinedIntended(shapes).edges)
  {
    CombinedShape(shapes);
    assert Seam(e, shapes);
    CombinedIntendedShape(shapes);
  }

  /**
   * A horizontal seam: Square(h) and the square stacked on it share the wall
   * y = 2h. Its midpoint is EDGE in both, so combine_building_shapes keeps
   * the wall, and the intended merge drops it.
   */
  lemma HorizontalSeamKept(shapes: seq<BuildingShape>, h: int)
    requires h >= 1 && shapes == [Square(h), RaisedSquare(h)] && Mergeable(shapes)
    ensures (Point(0, 2 * h), Point(2 * h, 2 * h)) in EdgeList(Combined(shapes).edges)
    ensures (Point(0, 2 * h), Point(2 * h, 2 * h)) !in EdgeList(CombinedIntended(shapes).edges)
  {
    var e := (Point(0, 2 * h), Point(2 * h, 2 * h));
    StackedSeam(h);
    SquareTopMidpointOnEdge(h, PenaltyMapOf(Square(h).edges));
    RaisedBottomMidpointOnEdge(h, PenaltyMapOf(RaisedSquare(h).edges));
    SeamKept(shapes, e);
  }

  /** The wall y = 2h is an edge of both stacked squares, with midpoint (h, 2h). */
  lemma StackedSeam(h: int)
    requires h >= 1
    ensures var e := (Point(0, 2 * h), Point(2 * h, 2 * h));
      && e in AllEdges([Square(h), RaisedSquare(h)])
      && HasEdge(Square(h), e) && HasEdge(RaisedSquare(h), e)
      && Midpoint(e) == Point(h, 2 * h)
  {
    var e := (Point(0, 2 * h), Point(2 * h, 2 * h));
    var shapes := [Square(h), RaisedSquare(h)];
    SquareEdges(h);
    RaisedSquareEdges(h);
    assert EdgeList(Square(h).edges)[1] == e by {
      assert EdgeAt(Square(h).edges, 1) == e;
    }
    assert EdgeList(RaisedSquare(h).edges)[3] == (e.1, e.0) by {
      assert EdgeAt(RaisedSquare(h).edges, 3) == (e.1, e.0);
    }
    assert e in AllEdges(shapes) by {
      assert shapes[..1] == [Square(h)] && shapes[..0] == [];
      assert AllEdges(shapes) == AllEdges(shapes[..1]) + EdgeList(RaisedSquare(h).edges);
      assert AllEdges(shapes[..1]) == AllEdges(shapes[..0]) + EdgeList(Square(h).edges);
    }
    MidpointOfHorizontalEdge(e);
    TruncDivTwo(2 * h);
  }
}
