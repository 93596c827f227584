/**
 * The two-ray point-in-polygon classifier of the building footprint engine.
 *
 * A vertical ray is cast up and down from the point; the distinct y values
 * where it meets the shape's edges are collected above and below, and the
 * number of crossings on each side decides INSIDE, EDGE or OUTSIDE. Vertical
 * edges on the ray are corrected by a per-edge penalty computed from the two
 * neighbouring edges of the ring (`edge_to_penalty_map`).
 *
 * The C++ code's `gradient` and the float products built from it are modelled
 * by exact rational arithmetic followed by the float-to-int conversion's
 * truncation toward zero.
 */
module Enclosure {
  import opened Wrappers
  import opened CppInt
  import opened BuildingShapeHeader

  // ---------------------------------------------------------------------
  // gradient / midpoint

  predicate IsVertical(e: EdgeKey) {
    e.0.x == e.1.x
  }

  /**
   * `(x - x1) * gradient(x1, y1, x2, y2) + y1` converted to int: the y at
   * which the line through a non-vertical edge meets the vertical line at x,
   * truncated toward zero.
   */
  function CrossingY(x: int, x1: int, y1: int, x2: int, y2: int): int
    requires x1 != x2
  {
    TruncDiv((x - x1) * (y2 - y1) + y1 * (x2 - x1), x2 - x1)
  }

  /** The line through an edge meets the vertical lines at its endpoints at the endpoints. */
  lemma CrossingYAtEndpoints(x1: int, y1: int, x2: int, y2: int)
    requires x1 != x2
    ensures CrossingY(x1, x1, y1, x2, y2) == y1
    ensures CrossingY(x2, x1, y1, x2, y2) == y2
  {
    TruncDivExact(y1, x2 - x1);
    assert (x2 - x1) * (y2 - y1) + y1 * (x2 - x1) == y2 * (x2 - x1);
    TruncDivExact(y2, x2 - x1);
  }

  /** Exact quotients are unaffected by the direction of rounding. */
  lemma TruncDivExact(k: int, d: int)
    requires d != 0
    ensures TruncDiv(k * d, d) == k
  {
    var q := TruncDiv(k * d, d);
    assert Abs(k * d) == Abs(k) * Abs(d);
    MulDivCancel(Abs(k), Abs(d));
  }

  lemma MulDivCancel(a: nat, b: nat)
    requires b > 0
    ensures (a * b) / b == a
  {
    var q, r := (a * b) / b, (a * b) % b;
    assert (q - a) * b == -r;
    if q > a {
      MulAtLeast(q - a, b);
    } else if q < a {
      MulAtLeast(a - q, b);
    }
  }

  lemma {:induction false} MulAtLeast(m: int, b: nat)
    requires m >= 1
    ensures m * b >= b
    decreases m
  {
    if m > 1 {
      MulAtLeast(m - 1, b);
      assert m * b == (m - 1) * b + b;
    }
  }

  /** A horizontal edge is met at its own height everywhere. */
  lemma CrossingYHorizontal(x: int, x1: int, y: int, x2: int)
    requires x1 != x2
    ensures CrossingY(x, x1, y, x2, y) == y
  {
    TruncDivExact(y, x2 - x1);
  }

  /** midpoint(x1, y1, x2, y2) with the C++ code's truncating `/ 2` and float-to-int conversion. */
  function Midpoint(e: EdgeKey): Point {
    var (a, b) := e;
    var mx := TruncDiv(a.x + b.x, 2);
    var my := if a.x != b.x then CrossingY(mx, a.x, a.y, b.x, b.y) else TruncDiv(a.y + b.y, 2);
    Point(mx, my)
  }

  /** The midpoint of a vertical edge lies on that edge. */
  lemma MidpointOfVerticalEdge(e: EdgeKey)
    requires IsVertical(e)
    ensures Midpoint(e).x == e.0.x
    ensures Min(e.0.y, e.1.y) <= Midpoint(e).y <= Max(e.0.y, e.1.y)
  {
    TruncDivTwo(e.0.x + e.1.x);
    TruncDivTwo(e.0.y + e.1.y);
  }

  /** The midpoint of a horizontal edge lies on that edge. */
  lemma MidpointOfHorizontalEdge(e: EdgeKey)
    requires e.0.y == e.1.y
    ensures Min(e.0.x, e.1.x) <= Midpoint(e).x <= Max(e.0.x, e.1.x)
    ensures Midpoint(e).y == e.0.y
  {
    TruncDivTwo(e.0.x + e.1.x);
    TruncDivTwo(e.0.y + e.1.y);
    if e.0.x != e.1.x {
      CrossingYHorizontal(Midpoint(e).x, e.0.x, e.0.y, e.1.x);
    }
  }

  // ---------------------------------------------------------------------
  // get_enclosure_type

  /** The penalty map: directed edge (from, to) to its correction. */
  type PenaltyMap = map<EdgeKey, int>

  /** The edge's x-range does not contain the ray. */
  predicate Misses(p: Point, e: EdgeKey) {
    Min(e.0.x, e.1.x) > p.x || Max(e.0.x, e.1.x) < p.x
  }

  /** A vertical edge on the ray whose y-span contains the point. */
  predicate Touches(p: Point, e: EdgeKey) {
    !Misses(p, e) && IsVertical(e) && Max(e.0.y, e.1.y) >= p.y && Min(e.0.y, e.1.y) <= p.y
  }

  /** A vertical edge on the ray that lies wholly above or below the point: its penalty is looked up. */
  predicate NeedsPenalty(p: Point, e: EdgeKey) {
    !Misses(p, e) && IsVertical(e) && !Touches(p, e)
  }

  /** Distinct contact heights on each side and the penalty totals. */
  datatype Contacts = Contacts(above: set<int>, below: set<int>, abovePenalty: int, belowPenalty: int)

  const NoContacts: Contacts := Contacts({}, {}, 0, 0)

  /** What one edge on the ray that is not touched adds to the contacts. */
  function ContactStep(p: Point, e: EdgeKey, pen: PenaltyMap, c: Contacts): Contacts
    requires !Misses(p, e) && !Touches(p, e)
    requires NeedsPenalty(p, e) ==> e in pen
  {
    var (a, b) := e;
    if !IsVertical(e) then
      var cy := CrossingY(p.x, a.x, a.y, b.x, b.y);
      c.(above := if p.y < cy then c.above + {cy} else c.above,
         below := if p.y > cy then c.below + {cy} else c.below)
    else if Min(a.y, b.y) > p.y then
      c.(above := c.above + {a.y, b.y}, abovePenalty := c.abovePenalty + pen[e])
    else
      c.(below := c.below + {a.y, b.y}, belowPenalty := c.belowPenalty + pen[e])
  }

  /**
   * What the C++ code demands of the penalty map (`pen_mp.at` throws
   * otherwise): every penalty the scan from edge k actually looks up is
   * present. Lookups stop at the first touched vertical edge.
   */
  predicate PenaltiesReachedFrom(p: Point, edges: seq<int>, pen: PenaltyMap, k: nat)
    decreases EdgeCount(edges) - k
  {
    k >= EdgeCount(edges) ||
    var e := EdgeAt(edges, k);
    if Misses(p, e) then PenaltiesReachedFrom(p, edges, pen, k + 1)
    else if Touches(p, e) then true
    else (NeedsPenalty(p, e) ==> e in pen) && PenaltiesReachedFrom(p, edges, pen, k + 1)
  }

  predicate PenaltiesReached(p: Point, shape: BuildingShape, pen: PenaltyMap) {
    PenaltiesReachedFrom(p, shape.edges, pen, 0)
  }

  /** The ray scan from edge k on: None when a vertical edge touches the point. */
  function ScanContacts(p: Point, edges: seq<int>, pen: PenaltyMap, k: nat, c: Contacts): Option<Contacts>
    requires PenaltiesReachedFrom(p, edges, pen, k)
    decreases EdgeCount(edges) - k
  {
    if k >= EdgeCount(edges) then Some(c)
    else
      var e := EdgeAt(edges, k);
      if Misses(p, e) then ScanContacts(p, edges, pen, k + 1, c)
      else if Touches(p, e) then None
      else ScanContacts(p, edges, pen, k + 1, ContactStep(p, e, pen, c))
  }

  /**
   * The verdict from the crossing counts, with C++'s `%` (the remainder
   * keeps the sign of a negative count).
   */
  function Classify(nAbove: int, nBelow: int): EnclosureType {
    if CRem(nAbove, 2) != CRem(nBelow, 2) then OnEdge
    else if CRem(nAbove, 2) == 0 then Outside
    else Inside
  }

  function Verdict(c: Contacts): EnclosureType {
    Classify(|c.above| - c.abovePenalty, |c.below| - c.belowPenalty)
  }

  /** get_enclosure_type as a function of the point, the shape and its penalty map. */
  function EnclosureOf(p: Point, shape: BuildingShape, pen: PenaltyMap): EnclosureType
    requires |shape.edges| % 4 == 0 && PenaltiesReached(p, shape, pen)
  {
    match ScanContacts(p, shape.edges, pen, 0, NoContacts)
    case None => OnEdge
    case Some(c) => Verdict(c)
  }

  /** get_enclosure_type: one pass over the edges, four integers at a time. */
  method GetEnclosureType(p: Point, shape: BuildingShape, pen: PenaltyMap) returns (r: EnclosureType)
    requires |shape.edges| % 4 == 0 && PenaltiesReached(p, shape, pen)
    ensures r == EnclosureOf(p, shape, pen)
  {
    var above: set<int>, below: set<int> := {}, {};
    var abovePenalty, belowPenalty := 0, 0;
    var edges := shape.edges;
    ghost var m := EdgeCount(edges);
    assert |edges| == 4 * m;
    ghost var k := 0;
    var i := 0;
    while i != |edges|
      invariant i == 4 * k && k <= m
      invariant PenaltiesReachedFrom(p, edges, pen, k)
      invariant ScanContacts(p, edges, pen, k, Contacts(above, below, abovePenalty, belowPenalty))
             == ScanContacts(p, edges, pen, 0, NoContacts)
      decreases |edges| - i
    {
      var x1, y1, x2, y2 := edges[i], edges[i + 1], edges[i + 2], edges[i + 3];
      ghost var e := EdgeAt(edges, k);
      assert e == (Point(x1, y1), Point(x2, y2));
      ghost var before := Contacts(above, below, abovePenalty, belowPenalty);
      ghost var at := k;
      if Min(x1, x2) > p.x || Max(x1, x2) < p.x {
        i, k := i + 4, k + 1;
        ScanPasses(p, edges, pen, at, k, before);
        continue;
      }
      if x1 != x2 {
        var contactY := CrossingY(p.x, x1, y1, x2, y2);
        if p.y < contactY {
          above := above + {contactY};
        }
        if p.y > contactY {
          below := below + {contactY};
        }
      } else {
        if Max(y1, y2) >= p.y && Min(y1, y2) <= p.y {
          ScanStops(p, edges, pen, k, before);
          return OnEdge;
        } else if Min(y1, y2) > p.y {
          above := above + {y1, y2};
          abovePenalty := abovePenalty + pen[(Point(x1, y1), Point(x2, y2))];
        } else {
          below := below + {y1, y2};
          belowPenalty := belowPenalty + pen[(Point(x1, y1), Point(x2, y2))];
        }
      }
      assert Contacts(above, below, abovePenalty, belowPenalty) == ContactStep(p, e, pen, before);
      i, k := i + 4, k + 1;
      ScanCounts(p, edges, pen, at, k, before);
    }
    assert k == m;
    var nAbove := |above| - abovePenalty;
    var nBelow := |below| - belowPenalty;
    if CRem(nAbove, 2) != CRem(nBelow, 2) {
      r := OnEdge;
    } else if CRem(nAbove, 2) == 0 {
      r := Outside;
    } else {
      r := Inside;
    }
  }

  /** An edge the ray misses leaves the contacts as they are. */
  lemma ScanPasses(p: Point, edges: seq<int>, pen: PenaltyMap, k: nat, next: nat, c: Contacts)
    requires next == k + 1 && k < EdgeCount(edges) && PenaltiesReachedFrom(p, edges, pen, k)
    requires Misses(p, EdgeAt(edges, k))
    ensures PenaltiesReachedFrom(p, edges, pen, next)
    ensures ScanContacts(p, edges, pen, k, c) == ScanContacts(p, edges, pen, next, c)
  {
  }

  /** An edge on the ray that does not touch the point adds its contacts. */
  lemma ScanCounts(p: Point, edges: seq<int>, pen: PenaltyMap, k: nat, next: nat, c: Contacts)
    requires next == k + 1 && k < EdgeCount(edges) && PenaltiesReachedFrom(p, edges, pen, k)
    requires !Misses(p, EdgeAt(edges, k)) && !Touches(p, EdgeAt(edges, k))
    ensures NeedsPenalty(p, EdgeAt(edges, k)) ==> EdgeAt(edges, k) in pen
    ensures PenaltiesReachedFrom(p, edges, pen, next)
    ensures ScanContacts(p, edges, pen, k, c) == ScanContacts(p, edges, pen, next, ContactStep(p, EdgeAt(edges, k), pen, c))
  {
  }

  /** A vertical edge through the point ends the scan. */
  lemma ScanStops(p: Point, edges: seq<int>, pen: PenaltyMap, k: nat, c: Contacts)
    requires k < EdgeCount(edges) && PenaltiesReachedFrom(p, edges, pen, k)
    requires Touches(p, EdgeAt(edges, k))
    ensures ScanContacts(p, edges, pen, k, c).None?
  {
  }

  // ---------------------------------------------------------------------
  // edge_to_penalty_map

  /**
   * The penalty of vertical edge i: 2 when the previous edge's start and
   * the next edge's end lie on the same side of the vertical run, else 1.
   * (The C++ code also reads a y for the next edge, from the previous edge;
   * it is never used.)
   */
  function PenaltyFor(edges: seq<int>, i: nat): (r: int)
    requires 3 <= EdgeCount(edges) && i < EdgeCount(edges)
    ensures r == 1 || r == 2
  {
    var n := EdgeCount(edges);
    FloorModRange(i - 1, n);
    FloorModRange(i + 1, n);
    var (from, to) := EdgeAt(edges, i);
    var before := EdgeAt(edges, FloorMod(i - 1, n)).0;
    var after := EdgeAt(edges, FloorMod(i + 1, n)).1;
    var isBeforeLeft := before.x - from.x < 0;
    var isAfterLeft := after.x - to.x < 0;
    if isBeforeLeft == isAfterLeft then 2 else 1
  }

  /** The map after the loop has visited edges 0 .. k-1: a later duplicate edge overwrites. */
  function PenaltiesUpTo(edges: seq<int>, k: nat): PenaltyMap
    requires 3 <= EdgeCount(edges) && k <= EdgeCount(edges)
  {
    if k == 0 then map[]
    else
      var m := PenaltiesUpTo(edges, k - 1);
      var e := EdgeAt(edges, k - 1);
      if IsVertical(e) then m[e := PenaltyFor(edges, k - 1)] else m
  }

  /** edge_to_penalty_map as a function: empty below three edges. */
  function PenaltyMapOf(edges: seq<int>): PenaltyMap {
    if EdgeCount(edges) < 3 then map[] else PenaltiesUpTo(edges, EdgeCount(edges))
  }

  method EdgeToPenaltyMap(shape: BuildingShape) returns (res: PenaltyMap)
    ensures res == PenaltyMapOf(shape.edges)
  {
    res := map[];
    var edges := shape.edges;
    var nedge := |edges| / 4;
    if nedge < 3 {
      return;
    }
    var i := 0;
    while i != nedge
      invariant 0 <= i <= nedge
      invariant res == PenaltiesUpTo(edges, i)
    {
      var from := Point(edges[i * 4], edges[i * 4 + 1]);
      var to := Point(edges[i * 4 + 2], edges[i * 4 + 3]);
      FloorModRange(i - 1, nedge);
      FloorModRange(i + 1, nedge);
      var before := Point(edges[FloorMod(i - 1, nedge) * 4], edges[FloorMod(i - 1, nedge) * 4 + 1]);
      var after := Point(edges[FloorMod(i + 1, nedge) * 4 + 2], edges[FloorMod(i - 1, nedge) * 4 + 3]);
      assert (from, to) == EdgeAt(edges, i);
      assert before == EdgeAt(edges, FloorMod(i - 1, nedge)).0;
      assert after.x == EdgeAt(edges, FloorMod(i + 1, nedge)).1.x;
      ghost var at := i;
      if from.x != to.x {
        PenaltiesStep(edges, at);
        i := i + 1;
        continue;
      }
      var isBeforeLeft := before.x - from.x < 0;
      var isAfterLeft := after.x - to.x < 0;
      var penalty := if isBeforeLeft == isAfterLeft then 2 else 1;
      assert penalty == PenaltyFor(edges, at);
      res := res[(from, to) := penalty];
      PenaltiesStep(edges, at);
      i := i + 1;
    }
  }

  lemma PenaltiesStep(edges: seq<int>, k: nat)
    requires 3 <= EdgeCount(edges) && k < EdgeCount(edges)
    ensures PenaltiesUpTo(edges, k + 1) ==
      if IsVertical(EdgeAt(edges, k)) then PenaltiesUpTo(edges, k)[EdgeAt(edges, k) := PenaltyFor(edges, k)]
      else PenaltiesUpTo(edges, k)
  {
  }
}

/** Properties of the classifier and of the penalty map. */
module EnclosureProperties {
  import opened Wrappers
  import opened CppInt
  import opened BuildingShapeHeader
  import opened Enclosure

  /**
   * The three verdicts by the counts' C++ remainders: INSIDE exactly when
   * both remainders agree and are odd, OUTSIDE exactly when both counts are
   * even, EDGE exactly when the remainders differ.
   */
  lemma ClassifyCases(a: int, b: int)
    ensures Classify(a, b) == Inside <==> CRem(a, 2) == CRem(b, 2) != 0
    ensures Classify(a, b) == Outside <==> a % 2 == 0 && b % 2 == 0
    ensures Classify(a, b) == OnEdge <==> CRem(a, 2) != CRem(b, 2)
  {
    CRemTwo(a);
    CRemTwo(b);
  }

  /**
   * Because `%` keeps the dividend's sign, an odd negative count and an odd
   * positive count disagree: -1 above and 1 below is EDGE, not INSIDE.
   */
  lemma ClassifyNegativeCount()
    ensures Classify(-1, 1) == OnEdge
    ensures Classify(-1, -3) == Inside
  {
    CRemTwo(-1);
    CRemTwo(1);
    CRemTwo(-3);
  }

  /** Contacts above lie strictly above the point, contacts below strictly below. */
  predicate SidesRespected(p: Point, c: Contacts) {
    (forall y :: y in c.above ==> y > p.y) && (forall y :: y in c.below ==> y < p.y)
  }

  lemma {:induction false} ScanRespectsSides(p: Point, edges: seq<int>, pen: PenaltyMap, k: nat, c: Contacts)
    requires PenaltiesReachedFrom(p, edges, pen, k) && SidesRespected(p, c)
    ensures ScanContacts(p, edges, pen, k, c).Some? ==> SidesRespected(p, ScanContacts(p, edges, pen, k, c).value)
    decreases EdgeCount(edges) - k
  {
    if k < EdgeCount(edges) {
      var e := EdgeAt(edges, k);
      if Misses(p, e) {
        ScanRespectsSides(p, edges, pen, k + 1, c);
      } else if !Touches(p, e) {
        ScanRespectsSides(p, edges, pen, k + 1, ContactStep(p, e, pen, c));
      }
    }
  }

  /** Every contact the classifier counts lies on the side of the point it is counted for. */
  lemma ContactsOnTheirSide(p: Point, shape: BuildingShape, pen: PenaltyMap)
    requires PenaltiesReached(p, shape, pen)
    ensures ScanContacts(p, shape.edges, pen, 0, NoContacts).Some? ==>
      SidesRespected(p, ScanContacts(p, shape.edges, pen, 0, NoContacts).value)
  {
    ScanRespectsSides(p, shape.edges, pen, 0, NoContacts);
  }

  lemma {:induction false} TouchedScanFails(p: Point, edges: seq<int>, pen: PenaltyMap, k: nat, j: nat, c: Contacts)
    requires PenaltiesReachedFrom(p, edges, pen, k)
    requires k <= j < EdgeCount(edges) && Touches(p, EdgeAt(edges, j))
    ensures ScanContacts(p, edges, pen, k, c).None?
    decreases j - k
  {
    var e := EdgeAt(edges, k);
    if k < j {
      if Misses(p, e) {
        TouchedScanFails(p, edges, pen, k + 1, j, c);
      } else if !Touches(p, e) {
        TouchedScanFails(p, edges, pen, k + 1, j, ContactStep(p, e, pen, c));
      }
    }
  }

  /** A point on a vertical edge of the shape is on its boundary, whatever the other edges say. */
  lemma PointOnVerticalEdge(p: Point, shape: BuildingShape, pen: PenaltyMap, j: nat)
    requires |shape.edges| % 4 == 0 && PenaltiesReached(p, shape, pen)
    requires j < EdgeCount(shape.edges) && Touches(p, EdgeAt(shape.edges, j))
    ensures EnclosureOf(p, shape, pen) == OnEdge
  {
    TouchedScanFails(p, shape.edges, pen, 0, j, NoContacts);
  }

  lemma {:induction false} MissedScanIsEmpty(p: Point, edges: seq<int>, pen: PenaltyMap, k: nat)
    requires forall j :: k <= j < EdgeCount(edges) ==> Misses(p, EdgeAt(edges, j))
    ensures PenaltiesReachedFrom(p, edges, pen, k)
    ensures ScanContacts(p, edges, pen, k, NoContacts) == Some(NoContacts)
    decreases EdgeCount(edges) - k
  {
    if k < EdgeCount(edges) {
      MissedScanIsEmpty(p, edges, pen, k + 1);
    }
  }

  /** With no contacts on either side the point is outside. */
  lemma NoContactsOutside()
    ensures Verdict(NoContacts) == Outside
  {
    assert Verdict(NoContacts) == Classify(0, 0);
    assert CRem(0, 2) == 0 by {
      CRemTwo(0);
    }
  }

  /** A point beside the shape (no edge's x-range contains it) is outside, with any penalty map. */
  lemma PointBesideShapeIsOutside(p: Point, shape: BuildingShape, pen: PenaltyMap)
    requires |shape.edges| % 4 == 0
    requires forall j :: 0 <= j < EdgeCount(shape.edges) ==> Misses(p, EdgeAt(shape.edges, j))
    ensures PenaltiesReached(p, shape, pen)
    ensures EnclosureOf(p, shape, pen) == Outside
  {
    MissedScanIsEmpty(p, shape.edges, pen, 0);
    NoContactsOutside();
  }

  // ---------------------------------------------------------------------
  // The penalty map

  lemma {:induction false} PenaltiesUpToKeys(edges: seq<int>, k: nat, e: EdgeKey)
    requires 3 <= EdgeCount(edges) && k <= EdgeCount(edges)
    ensures e in PenaltiesUpTo(edges, k) <==> exists j :: 0 <= j < k && EdgeAt(edges, j) == e && IsVertical(e)
  {
    if k > 0 {
      PenaltiesUpToKeys(edges, k - 1, e);
      if e == EdgeAt(edges, k - 1) && IsVertical(e) {
        assert EdgeAt(edges, k - 1) == e;
      }
    }
  }

  /** The map's keys are exactly the shape's vertical edges, and there are none below three edges. */
  lemma PenaltyMapKeys(edges: seq<int>, e: EdgeKey)
    ensures e in PenaltyMapOf(edges) <==>
      EdgeCount(edges) >= 3 && exists j :: 0 <= j < EdgeCount(edges) && EdgeAt(edges, j) == e && IsVertical(e)
  {
    if EdgeCount(edges) >= 3 {
      PenaltiesUpToKeys(edges, EdgeCount(edges), e);
    }
  }

  lemma {:induction false} PenaltiesUpToValues(edges: seq<int>, k: nat, e: EdgeKey, j: nat)
    requires 3 <= EdgeCount(edges) && j < k <= EdgeCount(edges)
    requires EdgeAt(edges, j) == e && IsVertical(e)
    requires forall i :: j < i < k ==> EdgeAt(edges, i) != e
    ensures e in PenaltiesUpTo(edges, k) && PenaltiesUpTo(edges, k)[e] == PenaltyFor(edges, j)
  {
    if k - 1 > j {
      PenaltiesUpToValues(edges, k - 1, e, j);
    }
  }

  /** A repeated vertical edge keeps the penalty of its last occurrence in the ring. */
  lemma PenaltyMapValue(edges: seq<int>, j: nat)
    requires 3 <= EdgeCount(edges) && j < EdgeCount(edges) && IsVertical(EdgeAt(edges, j))
    requires forall i :: j < i < EdgeCount(edges) ==> EdgeAt(edges, i) != EdgeAt(edges, j)
    ensures EdgeAt(edges, j) in PenaltyMapOf(edges)
    ensures PenaltyMapOf(edges)[EdgeAt(edges, j)] == PenaltyFor(edges, j)
  {
    PenaltiesUpToValues(edges, EdgeCount(edges), EdgeAt(edges, j), j);
  }

  /** On a ring, the neighbours of edge 0 are the last edge and edge 1. */
  lemma PenaltyNeighboursWrap(edges: seq<int>)
    requires 3 <= EdgeCount(edges)
    ensures var n := EdgeCount(edges);
      PenaltyFor(edges, 0) ==
        (if (EdgeAt(edges, n - 1).0.x < EdgeAt(edges, 0).0.x) == (EdgeAt(edges, 1).1.x < EdgeAt(edges, 0).1.x) then 2 else 1)
  {
    FloorModWrapsBack(EdgeCount(edges));
    FloorModInRange(1, EdgeCount(edges));
  }

  lemma {:induction false} PenaltyMapCoversFrom(p: Point, edges: seq<int>, k: nat)
    requires 3 <= EdgeCount(edges)
    ensures PenaltiesReachedFrom(p, edges, PenaltyMapOf(edges), k)
    decreases EdgeCount(edges) - k
  {
    if k < EdgeCount(edges) {
      var e := EdgeAt(edges, k);
      if NeedsPenalty(p, e) {
        PenaltyMapKeys(edges, e);
      }
      PenaltyMapCoversFrom(p, edges, k + 1);
    }
  }

  /** With at least three edges, the shape's own penalty map never makes the classifier throw. */
  lemma PenaltyMapSuffices(p: Point, shape: BuildingShape)
    requires 3 <= EdgeCount(shape.edges)
    ensures PenaltiesReached(p, shape, PenaltyMapOf(shape.edges))
  {
    PenaltyMapCoversFrom(p, shape.edges, 0);
  }

  // ---------------------------------------------------------------------
  // The axis-aligned square (0,0)-(0,2h)-(2h,2h)-(2h,0)-(0,0); h = 1 is the
  // square (0,0)-(0,2)-(2,2)-(2,0).

  function Square(h: int): BuildingShape {
    var s := 2 * h;
    BuildingShape(Some("sq"), [0, 0, 0, s, 0, s, s, s, s, s, s, 0, s, 0, 0, 0], [h, h])
  }

  lemma SquareEdges(h: int)
    ensures EdgeCount(Square(h).edges) == 4
    ensures EdgeAt(Square(h).edges, 0) == (Point(0, 0), Point(0, 2 * h))
    ensures EdgeAt(Square(h).edges, 1) == (Point(0, 2 * h), Point(2 * h, 2 * h))
    ensures EdgeAt(Square(h).edges, 2) == (Point(2 * h, 2 * h), Point(2 * h, 0))
    ensures EdgeAt(Square(h).edges, 3) == (Point(2 * h, 0), Point(0, 0))
  {
  }

  /** The centre of the square is inside (no penalty is looked up, so any map will do). */
  lemma SquareCentreInside(h: int, pen: PenaltyMap)
    requires h >= 1
    ensures PenaltiesReached(Point(h, h), Square(h), pen)
    ensures EnclosureOf(Point(h, h), Square(h), pen) == Inside
  {
    SquareCentreScan(h, pen);
    SingletonsClassifyInside(Contacts({2 * h}, {0}, 0, 0));
  }

  lemma SquareCentreScan(h: int, pen: PenaltyMap)
    requires h >= 1
    ensures PenaltiesReached(Point(h, h), Square(h), pen)
    ensures ScanContacts(Point(h, h), Square(h).edges, pen, 0, NoContacts) == Some(Contacts({2 * h}, {0}, 0, 0))
  {
    var p := Point(h, h);
    var edges := Square(h).edges;
    SquareEdges(h);
    assert PenaltiesReachedFrom(p, edges, pen, 4);
    assert PenaltiesReachedFrom(p, edges, pen, 3);
    assert PenaltiesReachedFrom(p, edges, pen, 2);
    assert PenaltiesReachedFrom(p, edges, pen, 1);
    assert PenaltiesReachedFrom(p, edges, pen, 0);
    var c1, c := Contacts({2 * h}, {}, 0, 0), Contacts({2 * h}, {0}, 0, 0);
    SquareCentreContacts(h, pen);
    assert ScanContacts(p, edges, pen, 4, c) == Some(c);
    assert ScanContacts(p, edges, pen, 3, c1) == Some(c);
    assert ScanContacts(p, edges, pen, 2, c1) == Some(c);
    assert ScanContacts(p, edges, pen, 1, NoContacts) == Some(c);
  }

  /** The two horizontal edges meet the ray through the centre at heights 2h and 0. */
  lemma SquareCentreContacts(h: int, pen: PenaltyMap)
    requires h >= 1
    ensures EdgeCount(Square(h).edges) == 4
    ensures ContactStep(Point(h, h), EdgeAt(Square(h).edges, 1), pen, NoContacts) == Contacts({2 * h}, {}, 0, 0)
    ensures ContactStep(Point(h, h), EdgeAt(Square(h).edges, 3), pen, Contacts({2 * h}, {}, 0, 0)) == Contacts({2 * h}, {0}, 0, 0)
  {
    SquareEdges(h);
    CrossingYHorizontal(h, 0, 2 * h, 2 * h);
    CrossingYHorizontal(h, 2 * h, 0, 0);
  }

  lemma SingletonsClassifyInside(c: Contacts)
    requires |c.above| == 1 && |c.below| == 1 && c.abovePenalty == 0 && c.belowPenalty == 0
    ensures Verdict(c) == Inside
  {
    assert Verdict(c) == Classify(1, 1);
    assert CRem(1, 2) == 1 by {
      CRemTwo(1);
    }
  }

  /** A corner of the square is on its edge. */
  lemma SquareCornerOnEdge(h: int, pen: PenaltyMap)
    requires h >= 1
    ensures PenaltiesReached(Point(2 * h, 2 * h), Square(h), pen)
    ensures EnclosureOf(Point(2 * h, 2 * h), Square(h), pen) == OnEdge
  {
    var p := Point(2 * h, 2 * h);
    SquareEdges(h);
    assert PenaltiesReachedFrom(p, Square(h).edges, pen, 2);
    assert PenaltiesReachedFrom(p, Square(h).edges, pen, 1);
    assert PenaltiesReachedFrom(p, Square(h).edges, pen, 0);
    PointOnVerticalEdge(p, Square(h), pen, 2);
  }

  /** A point beyond the square's corner is outside. */
  lemma SquareFarPointOutside(h: int, pen: PenaltyMap)
    requires h >= 1
    ensures PenaltiesReached(Point(2 * h + 1, 2 * h + 1), Square(h), pen)
    ensures EnclosureOf(Point(2 * h + 1, 2 * h + 1), Square(h), pen) == Outside
  {
    SquareEdges(h);
    forall j | 0 <= j < EdgeCount(Square(h).edges)
      ensures Misses(Point(2 * h + 1, 2 * h + 1), EdgeAt(Square(h).edges, j))
    {
      assert j == 0 || j == 1 || j == 2 || j == 3;
    }
    PointBesideShapeIsOutside(Point(2 * h + 1, 2 * h + 1), Square(h), pen);
  }

  /** The square [0, 2h] x [2h, 4h], stacked on Square(h); its bottom edge is Square(h)'s top edge reversed. */
  function RaisedSquare(h: int): BuildingShape {
    var s := 2 * h;
    BuildingShape(Some("sq"), [0, s, 0, 2 * s, 0, 2 * s, s, 2 * s, s, 2 * s, s, s, s, s, 0, s], [h, 3 * h])
  }

  lemma RaisedSquareEdges(h: int)
    ensures EdgeCount(RaisedSquare(h).edges) == 4
    ensures EdgeAt(RaisedSquare(h).edges, 0) == (Point(0, 2 * h), Point(0, 4 * h))
    ensures EdgeAt(RaisedSquare(h).edges, 1) == (Point(0, 4 * h), Point(2 * h, 4 * h))
    ensures EdgeAt(RaisedSquare(h).edges, 2) == (Point(2 * h, 4 * h), Point(2 * h, 2 * h))
    ensures EdgeAt(RaisedSquare(h).edges, 3) == (Point(2 * h, 2 * h), Point(0, 2 * h))
  {
  }

  /**
   * The midpoint of the square's top edge is EDGE: the top edge meets the
   * ray at the point's own height and counts on neither side, leaving one
   * contact below and none above.
   */
  lemma SquareTopMidpointOnEdge(h: int, pen: PenaltyMap)
    requires h >= 1
    ensures PenaltiesReached(Point(h, 2 * h), Square(h), pen)
    ensures EnclosureOf(Point(h, 2 * h), Square(h), pen) == OnEdge
  {
    SquareTopScan(h, pen);
    OneSideClassifiesOnEdge(Contacts({}, {0}, 0, 0));
  }

  lemma SquareTopScan(h: int, pen: PenaltyMap)
    requires h >= 1
    ensures PenaltiesReached(Point(h, 2 * h), Square(h), pen)
    ensures ScanContacts(Point(h, 2 * h), Square(h).edges, pen, 0, NoContacts) == Some(Contacts({}, {0}, 0, 0))
  {
    var p := Point(h, 2 * h);
    var edges := Square(h).edges;
    SquareEdges(h);
    assert PenaltiesReachedFrom(p, edges, pen, 4);
    assert PenaltiesReachedFrom(p, edges, pen, 3);
    assert PenaltiesReachedFrom(p, edges, pen, 2);
    assert PenaltiesReachedFrom(p, edges, pen, 1);
    assert PenaltiesReachedFrom(p, edges, pen, 0);
    var c := Contacts({}, {0}, 0, 0);
    SquareTopContacts(h, pen);
    assert ScanContacts(p, edges, pen, 4, c) == Some(c);
    assert ScanContacts(p, edges, pen, 3, NoContacts) == Some(c);
    assert ScanContacts(p, edges, pen, 2, NoContacts) == Some(c);
    assert ScanContacts(p, edges, pen, 1, NoContacts) == Some(c);
  }

  /** The top edge meets the ray at the point itself; the bottom edge below it, at 0. */
  lemma SquareTopContacts(h: int, pen: PenaltyMap)
    requires h >= 1
    ensures EdgeCount(Square(h).edges) == 4
    ensures ContactStep(Point(h, 2 * h), EdgeAt(Square(h).edges, 1), pen, NoContacts) == NoContacts
    ensures ContactStep(Point(h, 2 * h), EdgeAt(Square(h).edges, 3), pen, NoContacts) == Contacts({}, {0}, 0, 0)
  {
    SquareEdges(h);
    CrossingYHorizontal(h, 0, 2 * h, 2 * h);
    CrossingYHorizontal(h, 2 * h, 0, 0);
  }

  /** The same point, the midpoint of the raised square's bottom edge, is EDGE there too. */
  lemma RaisedBottomMidpointOnEdge(h: int, pen: PenaltyMap)
    requires h >= 1
    ensures PenaltiesReached(Point(h, 2 * h), RaisedSquare(h), pen)
    ensures EnclosureOf(Point(h, 2 * h), RaisedSquare(h), pen) == OnEdge
  {
    RaisedBottomScan(h, pen);
    OneSideClassifiesOnEdge(Contacts({4 * h}, {}, 0, 0));
  }

  lemma RaisedBottomScan(h: int, pen: PenaltyMap)
    requires h >= 1
    ensures PenaltiesReached(Point(h, 2 * h), RaisedSquare(h), pen)
    ensures ScanContacts(Point(h, 2 * h), RaisedSquare(h).edges, pen, 0, NoContacts) == Some(Contacts({4 * h}, {}, 0, 0))
  {
    var p := Point(h, 2 * h);
    var edges := RaisedSquare(h).edges;
    RaisedSquareEdges(h);
    assert PenaltiesReachedFrom(p, edges, pen, 4);
    assert PenaltiesReachedFrom(p, edges, pen, 3);
    assert PenaltiesReachedFrom(p, edges, pen, 2);
    assert PenaltiesReachedFrom(p, edges, pen, 1);
    assert PenaltiesReachedFrom(p, edges, pen, 0);
    var c := Contacts({4 * h}, {}, 0, 0);
    RaisedBottomContacts(h, pen);
    assert ScanContacts(p, edges, pen, 4, c) == Some(c);
    assert ScanContacts(p, edges, pen, 3, c) == Some(c);
    assert ScanContacts(p, edges, pen, 2, c) == Some(c);
    assert ScanContacts(p, edges, pen, 1, NoContacts) == Some(c);
  }

  /** The raised square's top edge meets the ray above, at 4h; its bottom edge at the point itself. */
  lemma RaisedBottomContacts(h: int, pen: PenaltyMap)
    requires h >= 1
    ensures EdgeCount(RaisedSquare(h).edges) == 4
    ensures ContactStep(Point(h, 2 * h), EdgeAt(RaisedSquare(h).edges, 1), pen, NoContacts) == Contacts({4 * h}, {}, 0, 0)
    ensures ContactStep(Point(h, 2 * h), EdgeAt(RaisedSquare(h).edges, 3), pen, Contacts({4 * h}, {}, 0, 0)) == Contacts({4 * h}, {}, 0, 0)
  {
    RaisedSquareEdges(h);
    CrossingYHorizontal(h, 0, 4 * h, 2 * h);
    CrossingYHorizontal(h, 2 * h, 2 * h, 0);
  }

  /** One contact on one side and none on the other is EDGE. */
  lemma OneSideClassifiesOnEdge(c: Contacts)
    requires |c.above| + |c.below| == 1 && c.abovePenalty == 0 && c.belowPenalty == 0
    ensures Verdict(c) == OnEdge
  {
    CRemTwo(0);
    CRemTwo(1);
  }
}
