/**
 * The types and inline helpers of the building footprint engine's header:
 * cell-space points, tile grid positions, command and enclosure kinds, the
 * stored building shape (flat edge list plus approximate centre), the
 * zigzag parameter decoder, the floor modulus used to walk a ring, the
 * validity test and the ordered-pair equality used for edge keys.
 */
module BuildingShapeHeader {
  import opened Wrappers
  import opened CppInt

  /** An unsigned 32-bit integer, as read from a geometry stream. */
  type uint32 = x: int | 0 <= x < TWO_32

  /** A position in cell space (one unit = one configured cell). */
  datatype Point = Point(x: int, y: int)

  /** A tile of the 512 x 512 tile grid, as (row, col). */
  datatype GridPos = GridPos(row: int, col: int)

  datatype CommandType = Move | Line | Close

  datatype EnclosureType = Inside | OnEdge | Outside

  /**
   * A decoded building footprint. `edges` is flat: each group of four is
   * (x1, y1, x2, y2) of one directed segment. `osid` is None while the
   * protobuf field is unset.
   */
  datatype BuildingShape = BuildingShape(osid: Option<string>, edges: seq<int>, approxCentre: seq<int>)

  const EmptyShape: BuildingShape := BuildingShape(None, [], [])

  datatype Tile = Tile(shapes: seq<BuildingShape>)

  /** A directed edge used as a penalty-map key: (from, to). */
  type EdgeKey = (Point, Point)

  /** A shape is usable for enclosure tests and output only with a two-entry centre. */
  predicate IsBuildingShapeValid(b: BuildingShape) {
    |b.approxCentre| == 2
  }

  /** Number of whole edges in a flat edge list. */
  function EdgeCount(edges: seq<int>): nat {
    |edges| / 4
  }

  /** The k-th directed edge of a flat edge list. */
  function EdgeAt(edges: seq<int>, k: nat): EdgeKey
    requires k < EdgeCount(edges)
  {
    (Point(edges[4 * k], edges[4 * k + 1]), Point(edges[4 * k + 2], edges[4 * k + 3]))
  }

  // ---------------------------------------------------------------------
  // Zigzag parameter integers (section 4.3.2 of the Mapbox Vector Tile
  // Specification v2.1). The C++ code computes `(param >> 1) ^ (-(param & 1))` on
  // unsigned 32-bit values and converts the result to `int`; below, each of
  // those operations is written as the arithmetic it performs.

  function DecodeParam(param: uint32): (r: int)
    ensures IsInt32(r)
  {
    var shifted := param / 2;                                  // param >> 1
    var mask := if param % 2 == 1 then TWO_32 - 1 else 0;      // -(param & 1), unsigned
    var z := if mask == 0 then shifted else mask - shifted;    // shifted ^ mask
    if z > INT_MAX then z - TWO_32 else z                      // unsigned -> int
  }

  /**
   * The encoding side of section 4.3.2 of the Mapbox Vector Tile
   * Specification v2.1: `(n << 1) ^ (n >> 31)` for a 32-bit `n`.
   */
  function ZigZagEncode(n: int): (p: uint32)
    requires IsInt32(n)
  {
    if n >= 0 then 2 * n else -2 * n - 1
  }

  /** Even parameters decode to half their value, odd ones to minus half their successor. */
  lemma DecodeParamArithmetic(param: uint32)
    ensures DecodeParam(param) == if param % 2 == 0 then param / 2 else -((param + 1) / 2)
  {
  }

  /** Decoding inverts encoding for every 32-bit integer. */
  lemma DecodeParamRoundTrip(n: int)
    requires IsInt32(n)
    ensures DecodeParam(ZigZagEncode(n)) == n
  {
    DecodeParamArithmetic(ZigZagEncode(n));
  }

  /** Encoding inverts decoding: the decoder is a bijection onto 32-bit integers. */
  lemma EncodeDecodeParam(param: uint32)
    ensures ZigZagEncode(DecodeParam(param)) == param
  {
    DecodeParamArithmetic(param);
  }

  /** The first values of the zigzag sequence: 0, -1, 1, -2. */
  lemma DecodeParamExamples()
    ensures DecodeParam(0) == 0 && DecodeParam(1) == -1 && DecodeParam(2) == 1 && DecodeParam(3) == -2
  {
    DecodeParamArithmetic(0);
    DecodeParamArithmetic(1);
    DecodeParamArithmetic(2);
    DecodeParamArithmetic(3);
  }

  // ---------------------------------------------------------------------
  // floor_mod: `x - floor(x / y) * y`, computed exactly.

  /** Mathematical floor of x / y. */
  function FloorDiv(x: int, y: int): int
    requires y != 0
  {
    if y > 0 then x / y else (-x) / (-y)
  }

  function FloorMod(x: int, y: int): (r: int)
    requires y != 0
    ensures y > 0 ==> r == x % y
    ensures y < 0 ==> r == -((-x) % (-y))
  {
    x - FloorDiv(x, y) * y
  }

  /** For a positive modulus, floor_mod lies in [0, y) and is congruent to x modulo y. */
  lemma FloorModRange(x: int, y: int)
    requires y > 0
    ensures 0 <= FloorMod(x, y) < y
    ensures FloorMod(x, y) % y == x % y
  {
  }

  /** One step back from index 0 lands on the last index of the ring. */
  lemma FloorModWrapsBack(n: int)
    requires n > 0
    ensures FloorMod(-1, n) == n - 1
  {
    var q, r := -1 / n, -1 % n;
    assert q * n + r == -1 && 0 <= r < n;
    ProductOrder(q, 0, n);
    ProductOrder(-2, q, n);
    assert q == -1;
  }

  /** Products by a positive factor keep the order of the other factors. */
  lemma ProductOrder(a: int, b: int, n: int)
    requires n > 0 && a * n < b * n
    ensures a < b
  {
  }

  /** An index already below the modulus is its own remainder. */
  lemma ModBelow(a: int, n: int)
    requires 0 <= a < n
    ensures a % n == a
  {
    var q, r := a / n, a % n;
    assert q * n + r == a && 0 <= r < n;
    ProductOrder(q, 1, n);
    ProductOrder(-1, q, n);
    assert q == 0;
  }

  /** The modulus itself wraps to 0. */
  lemma ModSelf(n: int)
    requires n > 0
    ensures n % n == 0
  {
    var q, r := n / n, n % n;
    assert q * n + r == n && 0 <= r < n;
    ProductOrder(0, q, n);
    ProductOrder(q, 2, n);
    assert q == 1;
  }

  /** On a ring of n indices, floor_mod leaves in-range indices alone. */
  lemma FloorModInRange(x: int, n: int)
    requires 0 <= x < n
    ensures FloorMod(x, n) == x
  {
  }

  // ---------------------------------------------------------------------
  // PairEq: component-wise equality of pairs.

  function PairEq<U(==), V(==)>(p1: (U, V), p2: (U, V)): bool
  {
    p1.0 == p2.0 && p1.1 == p2.1
  }

  /** Edge keys are ordered: reversing an edge gives a different key unless it is a loop. */
  lemma EdgeKeysAreOrdered(a: Point, b: Point)
    ensures PairEq((a, b), (b, a)) <==> a == b
  {
  }
}
