/**
 * The geometry decoder of the building footprint engine: it turns one
 * vector-tile feature's command/parameter integer stream (Mapbox Vector Tile
 * Specification v2.1, sections 4.3.1 to 4.3.3) into a flat edge list, an
 * approximate centre and the feature's `osid`, and a whole tile into the
 * list of successfully decoded building shapes.
 *
 * `Run` is the specification: a state machine over the stream, one step per
 * command repetition. The methods `DecodeFeature` and `ParseTile` follow the
 * C++ code's loops and are proved equal to it.
 */
module TileDecoder {
  import opened Wrappers
  import opened CppInt
  import opened BuildingShapeHeader

  /** A feature of the raw tile: tag index pairs and the geometry stream. */
  datatype Feature = Feature(tags: seq<nat>, geometry: seq<uint32>)

  /**
   * A layer of the raw tile. `values` holds each tag value already rendered
   * as text (the C++ code's value_to_string, which is not part of this model).
   */
  datatype Layer = Layer(name: string, keys: seq<string>, values: seq<string>, features: seq<Feature>)

  datatype FullTile = FullTile(layers: seq<Layer>)

  const BUILDINGS_LAYER: string := "bld_fts_buildingpart"

  // ---------------------------------------------------------------------
  // Command integers (section 4.3.1 of the Mapbox Vector Tile Specification v2.1)

  datatype Command = Command(kind: CommandType, count: nat)

  function CommandId(kind: CommandType): nat {
    match kind
    case Move => 1
    case Line => 2
    case Close => 7
  }

  /** The low three bits select the command, the remaining bits are the repeat count. */
  function DecodeCommand(cmd: uint32): Option<Command> {
    var id := cmd % 8;   // cmd & 0x7
    var count := cmd / 8;  // cmd >> 3
    if id == 1 then Some(Command(Move, count))
    else if id == 2 then Some(Command(Line, count))
    else if id == 7 then Some(Command(Close, count))
    else None
  }

  function EncodeCommand(c: Command): int {
    c.count * 8 + CommandId(c.kind)
  }

  /** A word decodes exactly when its low three bits are 1, 2 or 7, and then it is re-encoded by its command. */
  lemma DecodeCommandCases(cmd: uint32)
    ensures DecodeCommand(cmd).Some? <==> cmd % 8 in {1, 2, 7}
    ensures DecodeCommand(cmd).Some? ==> EncodeCommand(DecodeCommand(cmd).value) == cmd
    ensures DecodeCommand(cmd).Some? ==> DecodeCommand(cmd).value.count == cmd / 8
  {
  }

  /** Decoding inverts encoding for every command whose word fits in 32 bits. */
  lemma DecodeCommandRoundTrip(c: Command)
    requires EncodeCommand(c) < TWO_32
    ensures DecodeCommand(EncodeCommand(c)) == Some(c)
  {
    var w := EncodeCommand(c);
    assert w % 8 == CommandId(c.kind) && w / 8 == c.count;
  }

  /** MoveTo with count 5 is the word 41; a word whose low bits are 4 is an error. */
  lemma DecodeCommandExamples()
    ensures DecodeCommand(5 * 8 + 1) == Some(Command(Move, 5))
    ensures DecodeCommand(4) == None && DecodeCommand(12) == None
  {
  }

  // ---------------------------------------------------------------------
  // The decoder's state machine

  /** Parameter integers a command consumes from the stream. */
  function Consumed(c: Command): nat {
    if c.kind == Close then 0 else 2 * c.count
  }

  /**
   * What the C++ code demands of a stream: it never ends inside a command's
   * parameters (reading past the repeated field is undefined). Scanning
   * stops at the first word that is not a command, where decoding stops too.
   */
  predicate ParamsPresentFrom(geom: seq<uint32>, i: nat)
    decreases |geom| - i
  {
    i >= |geom| ||
    match DecodeCommand(geom[i])
    case None => true
    case Some(c) => i + 1 + Consumed(c) <= |geom| && ParamsPresentFrom(geom, i + 1 + Consumed(c))
  }

  predicate ParamsPresent(geom: seq<uint32>) {
    ParamsPresentFrom(geom, 0)
  }

  /** Cursor, ring start, emitted edges and running bounding box. */
  datatype DecodeState = DecodeState(cursor: Point, start: Point, edges: seq<int>,
                                     minX: int, minY: int, maxX: int, maxY: int)

  /** The sentinel for "no LineTo seen yet". */
  const NO_START: Point := Point(INT_MAX, INT_MAX)

  const InitState: DecodeState := DecodeState(Point(0, 0), NO_START, [], INT_MAX, INT_MAX, INT_MIN, INT_MIN)

  /** One MoveTo repetition: the cursor moves, nothing is emitted. */
  function MoveStep(st: DecodeState, dx: int, dy: int): DecodeState {
    st.(cursor := Point(st.cursor.x + dx, st.cursor.y + dy))
  }

  /**
   * One LineTo repetition: the first one fixes the ring start, then the edge
   * (cursor before, cursor after) is emitted and the bounding box grows by
   * the cursor after the move.
   */
  function LineStep(st: DecodeState, dx: int, dy: int): DecodeState {
    var start := if st.start == NO_START then st.cursor else st.start;
    var c := Point(st.cursor.x + dx, st.cursor.y + dy);
    DecodeState(c, start, st.edges + [st.cursor.x, st.cursor.y, c.x, c.y],
                Min(st.minX, c.x), Min(st.minY, c.y), Max(st.maxX, c.x), Max(st.maxY, c.y))
  }

  /** One ClosePath repetition: the edge (cursor, start) is emitted. */
  function CloseStep(st: DecodeState): DecodeState {
    st.(edges := st.edges + [st.cursor.x, st.cursor.y, st.start.x, st.start.y])
  }

  /** `count` repetitions of one command whose parameters start at index i. */
  function Repeat(geom: seq<uint32>, i: nat, kind: CommandType, count: nat, st: DecodeState): (r: (DecodeState, nat))
    requires kind == Close || i + 2 * count <= |geom|
    ensures r.1 == i + (if kind == Close then 0 else 2 * count)
    decreases count
  {
    if count == 0 then (st, i)
    else match kind
      case Move => Repeat(geom, i + 2, kind, count - 1, MoveStep(st, DecodeParam(geom[i]), DecodeParam(geom[i + 1])))
      case Line => Repeat(geom, i + 2, kind, count - 1, LineStep(st, DecodeParam(geom[i]), DecodeParam(geom[i + 1])))
      case Close => Repeat(geom, i, kind, count - 1, CloseStep(st))
  }

  /** Decodes the stream from index i on; None when a command word does not decode. */
  function Run(geom: seq<uint32>, i: nat, st: DecodeState): Option<DecodeState>
    requires ParamsPresentFrom(geom, i)
    decreases |geom| - i
  {
    if i >= |geom| then Some(st)
    else match DecodeCommand(geom[i])
      case None => None
      case Some(c) =>
        var next := Repeat(geom, i + 1, c.kind, c.count, st);
        Run(geom, next.1, next.0)
  }

  /** One command of the loop: a bad word stops it, otherwise its repetitions run and the rest of the stream follows. */
  lemma RunAt(geom: seq<uint32>, i: nat, st: DecodeState)
    requires ParamsPresentFrom(geom, i) && i < |geom|
    ensures DecodeCommand(geom[i]).None? ==> Run(geom, i, st).None?
    ensures DecodeCommand(geom[i]).Some? ==>
              var c := DecodeCommand(geom[i]).value;
              i + 1 + Consumed(c) <= |geom| && ParamsPresentFrom(geom, i + 1 + Consumed(c)) &&
              Run(geom, i, st) == Run(geom, i + 1 + Consumed(c), Repeat(geom, i + 1, c.kind, c.count, st).0)
  {
  }

  /** (min + max) / 2 with the C++ code's 32-bit `int` addition and truncating division. */
  function MidValue(lo: int, hi: int): int {
    TruncDiv(Wrap32(lo + hi), 2)
  }

  /** The approximate centre: midpoint of the box, widened by the ring start. */
  function Centre(st: DecodeState): seq<int> {
    [MidValue(Min(st.minX, st.start.x), Max(st.maxX, st.start.x)),
     MidValue(Min(st.minY, st.start.y), Max(st.maxY, st.start.y))]
  }

  // ---------------------------------------------------------------------
  // Tags

  /** Every complete tag pair indexes an existing key and value (the C++ code demands it). */
  predicate TagsInRange(feat: Feature, layer: Layer) {
    forall i :: 0 <= i < |feat.tags| - 1 && i % 2 == 0 ==>
      feat.tags[i] < |layer.keys| && feat.tags[i + 1] < |layer.values|
  }

  /** The osid found by scanning the tag pairs from index i, starting from `found`. */
  function OsidScan(feat: Feature, layer: Layer, i: nat, found: Option<string>): Option<string>
    requires TagsInRange(feat, layer) && i % 2 == 0
    decreases |feat.tags| - i
  {
    if i + 1 >= |feat.tags| then found
    else
      var found' := if layer.keys[feat.tags[i]] == "osid" then Some(layer.values[feat.tags[i + 1]]) else found;
      OsidScan(feat, layer, i + 2, found')
  }

  function FeatureOsid(feat: Feature, layer: Layer): Option<string>
    requires TagsInRange(feat, layer)
  {
    OsidScan(feat, layer, 0, None)
  }

  /** The tag pair at even index i has key "osid". */
  predicate IsOsidPair(feat: Feature, layer: Layer, i: nat)
    requires TagsInRange(feat, layer)
  {
    i % 2 == 0 && i + 1 < |feat.tags| && layer.keys[feat.tags[i]] == "osid"
  }

  /** The "osid" pair at j is the last one. */
  ghost predicate IsLastOsidPair(feat: Feature, layer: Layer, j: nat)
    requires TagsInRange(feat, layer)
  {
    IsOsidPair(feat, layer, j) && forall k :: j < k ==> !IsOsidPair(feat, layer, k)
  }

  /** The last "osid" pair wins; without one from i on, the scan keeps what it had. */
  lemma {:induction false} OsidScanLastWins(feat: Feature, layer: Layer, i: nat, found: Option<string>)
    requires TagsInRange(feat, layer) && i % 2 == 0
    ensures (forall j :: i <= j ==> !IsOsidPair(feat, layer, j)) ==> OsidScan(feat, layer, i, found) == found
    ensures forall j :: i <= j && IsLastOsidPair(feat, layer, j) ==>
      OsidScan(feat, layer, i, found) == Some(layer.values[feat.tags[j + 1]])
    decreases |feat.tags| - i
  {
    if i + 1 < |feat.tags| {
      var found' := if layer.keys[feat.tags[i]] == "osid" then Some(layer.values[feat.tags[i + 1]]) else found;
      OsidScanLastWins(feat, layer, i + 2, found');
      if forall j :: i <= j ==> !IsOsidPair(feat, layer, j) {
        assert !IsOsidPair(feat, layer, i);
      }
      forall j | i <= j && IsLastOsidPair(feat, layer, j)
        ensures OsidScan(feat, layer, i, found) == Some(layer.values[feat.tags[j + 1]])
      {
        if j == i {
          assert forall k :: i + 2 <= k ==> !IsOsidPair(feat, layer, k);
        } else {
          assert !IsOsidPair(feat, layer, i + 1);
        }
      }
    }
  }

  /** Whole-feature form: there is an osid exactly when some pair has key "osid", and it is the last such pair's value. */
  lemma FeatureOsidIsLastPair(feat: Feature, layer: Layer)
    requires TagsInRange(feat, layer)
    ensures FeatureOsid(feat, layer).Some? <==> exists j :: IsOsidPair(feat, layer, j)
    ensures forall j :: IsLastOsidPair(feat, layer, j) ==> FeatureOsid(feat, layer) == Some(layer.values[feat.tags[j + 1]])
  {
    OsidScanLastWins(feat, layer, 0, None);
    if exists j :: IsOsidPair(feat, layer, j) {
      var j :| IsOsidPair(feat, layer, j);
      LastOsidPair(feat, layer, j);
    }
  }

  /** If some pair is an "osid" pair, there is a last one. */
  lemma {:induction false} LastOsidPair(feat: Feature, layer: Layer, j: nat)
    requires TagsInRange(feat, layer) && IsOsidPair(feat, layer, j)
    ensures exists l :: IsLastOsidPair(feat, layer, l)
    decreases |feat.tags| - j
  {
    if exists k :: j < k && IsOsidPair(feat, layer, k) {
      var k :| j < k && IsOsidPair(feat, layer, k);
      LastOsidPair(feat, layer, k);
    } else {
      assert IsLastOsidPair(feat, layer, j);
    }
  }

  // ---------------------------------------------------------------------
  // decode_feature

  /** The tag loop of decode_feature: every "osid" pair overwrites the one before. */
  method ScanOsid(feat: Feature, layer: Layer) returns (osid: Option<string>)
    requires TagsInRange(feat, layer)
    ensures osid == FeatureOsid(feat, layer)
  {
    osid := None;
    var t := 0;
    while t + 1 < |feat.tags|
      invariant t % 2 == 0
      invariant OsidScan(feat, layer, t, osid) == FeatureOsid(feat, layer)
    {
      if layer.keys[feat.tags[t]] == "osid" {
        osid := Some(layer.values[feat.tags[t + 1]]);
      }
      t := t + 2;
    }
  }

  /** What decoding one feature yields: None for a missing osid or a bad command word. */
  function DecodeFeatureSpec(feat: Feature, layer: Layer): Option<BuildingShape>
    requires TagsInRange(feat, layer) && ParamsPresent(feat.geometry)
  {
    match FeatureOsid(feat, layer)
    case None => None
    case Some(id) =>
      match Run(feat.geometry, 0, InitState)
      case None => None
      case Some(st) => Some(BuildingShape(Some(id), st.edges, Centre(st)))
  }

  /**
   * decode_feature: scan the tags for the osid (the last one wins), then run
   * the command loop. On failure the shape is cleared.
   */
  method DecodeFeature(feat: Feature, layer: Layer) returns (ok: bool, res: BuildingShape)
    requires TagsInRange(feat, layer) && ParamsPresent(feat.geometry)
    ensures ok == DecodeFeatureSpec(feat, layer).Some?
    ensures res == if ok then DecodeFeatureSpec(feat, layer).value else EmptyShape
  {
    var osid := ScanOsid(feat, layer);
    res := EmptyShape.(osid := osid);
    if res.osid.None? {
      res := EmptyShape;
      return false, res;
    }

    var geom := feat.geometry;
    var i: nat := 0;
    var st := InitState;
    while i < |geom|
      invariant ParamsPresentFrom(geom, i)
      invariant Run(geom, i, st) == Run(geom, 0, InitState)
      decreases |geom| - i
    {
      RunAt(geom, i, st);
      ghost var i0, st0 := i, st;
      var cmd := DecodeCommand(geom[i]);
      i := i + 1;
      if cmd.None? {
        assert Run(geom, 0, InitState).None?;
        res := EmptyShape;
        return false, res;
      }
      st, i := RepeatCommand(geom, i, cmd.value.kind, cmd.value.count, st);
      assert i == i0 + 1 + Consumed(cmd.value) && Run(geom, i, st) == Run(geom, i0, st0);
    }
    assert Run(geom, 0, InitState) == Some(st);
    res := res.(edges := st.edges, approxCentre := Centre(st));
    assert res == BuildingShape(osid, st.edges, Centre(st));
    ok := true;
  }

  /**
   * The inner `for (; count > 0; count--)` loop of decode_feature: the
   * cursor, ring start, bounding box and emitted edges of the current shape.
   */
  method RepeatCommand(geom: seq<uint32>, i0: nat, kind: CommandType, count0: nat, st0: DecodeState)
    returns (st: DecodeState, i: nat)
    requires kind == Close || i0 + 2 * count0 <= |geom|
    ensures (st, i) == Repeat(geom, i0, kind, count0, st0)
  {
    var cursor, start, edges := st0.cursor, st0.start, st0.edges;
    var minX, minY, maxX, maxY := st0.minX, st0.minY, st0.maxX, st0.maxY;
    i := i0;
    var count := count0;
    while count > 0
      invariant kind == Close || i + 2 * count <= |geom|
      invariant Repeat(geom, i, kind, count, DecodeState(cursor, start, edges, minX, minY, maxX, maxY))
             == Repeat(geom, i0, kind, count0, st0)
    {
      if kind == Move {
        cursor := Point(cursor.x + DecodeParam(geom[i]), cursor.y + DecodeParam(geom[i + 1]));
        i := i + 2;
      } else if kind == Line {
        ghost var before := DecodeState(cursor, start, edges, minX, minY, maxX, maxY);
        if start == NO_START {
          start := cursor;
        }
        edges := edges + [cursor.x, cursor.y];
        cursor := Point(cursor.x + DecodeParam(geom[i]), cursor.y + DecodeParam(geom[i + 1]));
        edges := edges + [cursor.x, cursor.y];
        minX, minY := Min(minX, cursor.x), Min(minY, cursor.y);
        maxX, maxY := Max(maxX, cursor.x), Max(maxY, cursor.y);
        assert DecodeState(cursor, start, edges, minX, minY, maxX, maxY)
            == LineStep(before, DecodeParam(geom[i]), DecodeParam(geom[i + 1]));
        i := i + 2;
      } else {
        edges := edges + [cursor.x, cursor.y, start.x, start.y];
      }
      count := count - 1;
    }
    st := DecodeState(cursor, start, edges, minX, minY, maxX, maxY);
  }

  // ---------------------------------------------------------------------
  // parse_tile

  /** The first layer with the given name. */
  function FindLayer(layers: seq<Layer>, name: string): (r: Option<Layer>)
    ensures r.Some? ==> r.value in layers && r.value.name == name
    ensures r.None? ==> forall l :: l in layers ==> l.name != name
  {
    if |layers| == 0 then None
    else if layers[0].name == name then Some(layers[0])
    else FindLayer(layers[1..], name)
  }

  predicate FeaturesWellFormed(layer: Layer) {
    forall f :: f in layer.features ==> TagsInRange(f, layer) && ParamsPresent(f.geometry)
  }

  /** What the C++ code demands of a raw tile: the buildings layer's features are well formed. */
  predicate TileWellFormed(ftile: FullTile) {
    var l := FindLayer(ftile.layers, BUILDINGS_LAYER);
    l.Some? ==> FeaturesWellFormed(l.value)
  }

  /** The successfully decoded features, in feature order. */
  function DecodedShapes(features: seq<Feature>, layer: Layer): seq<BuildingShape>
    requires forall f :: f in features ==> TagsInRange(f, layer) && ParamsPresent(f.geometry)
  {
    if |features| == 0 then []
    else
      var rest := DecodedShapes(features[1..], layer);
      match DecodeFeatureSpec(features[0], layer)
      case None => rest
      case Some(s) => [s] + rest
  }

  function ParseTileSpec(ftile: FullTile): Tile
    requires TileWellFormed(ftile)
  {
    match FindLayer(ftile.layers, BUILDINGS_LAYER)
    case None => Tile([])
    case Some(layer) => Tile(DecodedShapes(layer.features, layer))
  }

  lemma DecodedShapesAppend(features: seq<Feature>, f: Feature, layer: Layer)
    requires forall g :: g in features + [f] ==> TagsInRange(g, layer) && ParamsPresent(g.geometry)
    ensures DecodedShapes(features + [f], layer) ==
      DecodedShapes(features, layer) + (match DecodeFeatureSpec(f, layer) case None => [] case Some(s) => [s])
  {
    if |features| > 0 {
      assert (features + [f])[1..] == features[1..] + [f];
      DecodedShapesAppend(features[1..], f, layer);
    }
  }

  /**
   * parse_tile: find the buildings layer, decode every feature into the
   * shape at the end of the list (appending a fresh one after each success)
   * and drop the unused trailing shape.
   */
  method ParseTile(ftile: FullTile) returns (res: Tile)
    requires TileWellFormed(ftile)
    ensures res == ParseTileSpec(ftile)
  {
    var k := 0;
    while k < |ftile.layers| && ftile.layers[k].name != BUILDINGS_LAYER
      invariant k <= |ftile.layers|
      invariant FindLayer(ftile.layers[k..], BUILDINGS_LAYER) == FindLayer(ftile.layers, BUILDINGS_LAYER)
    {
      assert ftile.layers[k..][1..] == ftile.layers[k + 1..];
      k := k + 1;
    }
    if k == |ftile.layers| {
      return Tile([]);
    }
    var layer := ftile.layers[k];
    var shapes := [EmptyShape];
    var n := 0;
    while n < |layer.features|
      invariant n <= |layer.features|
      invariant shapes == DecodedShapes(layer.features[..n], layer) + [EmptyShape]
    {
      var ok, added := DecodeFeature(layer.features[n], layer);
      if ok {
        shapes := shapes[..|shapes| - 1] + [added] + [EmptyShape];
      }
      DecodedShapesAppend(layer.features[..n], layer.features[n], layer);
      assert layer.features[..n + 1] == layer.features[..n] + [layer.features[n]];
      n := n + 1;
    }
    assert layer.features[..n] == layer.features;
    res := Tile(shapes[..|shapes| - 1]);
  }
}

/** Properties of the geometry decoder's specification. */
module TileDecoderProperties {
  import opened Wrappers
  import opened CppInt
  import opened BuildingShapeHeader
  import opened TileDecoder

  // ---------------------------------------------------------------------
  // Edges come in groups of four

  lemma {:induction false} RepeatKeepsEdgeGroups(geom: seq<uint32>, i: nat, kind: CommandType, count: nat, st: DecodeState)
    requires kind == Close || i + 2 * count <= |geom|
    requires |st.edges| % 4 == 0
    ensures |Repeat(geom, i, kind, count, st).0.edges| % 4 == 0
    decreases count
  {
    if count > 0 {
      match kind
      case Move => RepeatKeepsEdgeGroups(geom, i + 2, kind, count - 1, MoveStep(st, DecodeParam(geom[i]), DecodeParam(geom[i + 1])));
      case Line => RepeatKeepsEdgeGroups(geom, i + 2, kind, count - 1, LineStep(st, DecodeParam(geom[i]), DecodeParam(geom[i + 1])));
      case Close => RepeatKeepsEdgeGroups(geom, i, kind, count - 1, CloseStep(st));
    }
  }

  /** Every decode appends whole edges: the edge list length stays a multiple of 4. */
  lemma {:induction false} RunKeepsEdgeGroups(geom: seq<uint32>, i: nat, st: DecodeState)
    requires ParamsPresentFrom(geom, i)
    requires |st.edges| % 4 == 0
    ensures Run(geom, i, st).Some? ==> |Run(geom, i, st).value.edges| % 4 == 0
    decreases |geom| - i
  {
    if i < |geom| && DecodeCommand(geom[i]).Some? {
      var c := DecodeCommand(geom[i]).value;
      var next := Repeat(geom, i + 1, c.kind, c.count, st);
      RepeatKeepsEdgeGroups(geom, i + 1, c.kind, c.count, st);
      RunKeepsEdgeGroups(geom, next.1, next.0);
    }
  }

  // ---------------------------------------------------------------------
  // Decoding fails exactly on an undecodable command word

  /** Every word found at a command position decodes (a property of the stream alone). */
  predicate AllCommandsDecode(geom: seq<uint32>, i: nat)
    decreases |geom| - i
  {
    i >= |geom| ||
    match DecodeCommand(geom[i])
    case None => false
    case Some(c) => AllCommandsDecode(geom, i + 1 + Consumed(c))
  }

  /** Whether decoding fails depends only on the command words, never on coordinates. */
  lemma {:induction false} RunFailsOnlyOnBadCommand(geom: seq<uint32>, i: nat, st: DecodeState)
    requires ParamsPresentFrom(geom, i)
    ensures Run(geom, i, st).Some? <==> AllCommandsDecode(geom, i)
    decreases |geom| - i
  {
    if i < |geom| && DecodeCommand(geom[i]).Some? {
      var c := DecodeCommand(geom[i]).value;
      var next := Repeat(geom, i + 1, c.kind, c.count, st);
      RunFailsOnlyOnBadCommand(geom, next.1, next.0);
    }
  }

  /**
   * decode_feature fails exactly when no tag pair has key "osid" or a
   * command word does not decode; on success the shape carries the last
   * "osid" value, whole edges and a two-entry centre.
   */
  lemma DecodeFeatureOutcome(feat: Feature, layer: Layer)
    requires TagsInRange(feat, layer) && ParamsPresent(feat.geometry)
    ensures DecodeFeatureSpec(feat, layer).None? <==>
      (forall j :: !IsOsidPair(feat, layer, j)) || !AllCommandsDecode(feat.geometry, 0)
    ensures DecodeFeatureSpec(feat, layer).Some? ==>
      var s := DecodeFeatureSpec(feat, layer).value;
      && IsBuildingShapeValid(s)
      && |s.edges| % 4 == 0
      && (forall j :: IsLastOsidPair(feat, layer, j) ==> s.osid == Some(layer.values[feat.tags[j + 1]]))
  {
    FeatureOsidIsLastPair(feat, layer);
    RunFailsOnlyOnBadCommand(feat.geometry, 0, InitState);
    RunKeepsEdgeGroups(feat.geometry, 0, InitState);
  }

  /**
   * A feature with an osid and no geometry at all still decodes, to no
   * edges and the centre (-1, -1): the unset start (INT_MAX, INT_MAX) is
   * folded into both the minimum and the maximum, and INT_MAX + INT_MAX
   * wraps to -2 in 32-bit arithmetic.
   */
  lemma EmptyGeometryDecodes(feat: Feature, layer: Layer, id: string)
    requires TagsInRange(feat, layer) && feat.geometry == []
    requires FeatureOsid(feat, layer) == Some(id)
    ensures DecodeFeatureSpec(feat, layer) == Some(BuildingShape(Some(id), [], [-1, -1]))
  {
    assert Wrap32(INT_MAX + INT_MAX) == -2;
    assert MidValue(INT_MAX, INT_MAX) == -1;
  }

  // ---------------------------------------------------------------------
  // A single polygon ring decodes to a closed ring of edges

  function AddPoint(p: Point, d: Point): Point {
    Point(p.x + d.x, p.y + d.y)
  }

  /** The ring's vertices: the MoveTo target, then the running sums of the LineTo deltas. */
  function Vertices(origin: Point, ds: seq<Point>): (vs: seq<Point>)
    ensures |vs| == |ds| + 1 && vs[0] == origin
  {
    if |ds| == 0 then [origin]
    else
      var prev := Vertices(origin, ds[..|ds| - 1]);
      prev + [AddPoint(prev[|ds| - 1], ds[|ds| - 1])]
  }

  /** Zigzag-encoded (dx, dy) parameter pairs. */
  function ParamStream(ds: seq<Point>): (ps: seq<uint32>)
    requires forall d :: d in ds ==> IsInt32(d.x) && IsInt32(d.y)
    ensures |ps| == 2 * |ds|
  {
    if |ds| == 0 then []
    else ParamStream(ds[..|ds| - 1]) + [ZigZagEncode(ds[|ds| - 1].x), ZigZagEncode(ds[|ds| - 1].y)]
  }

  lemma {:induction false} ParamStreamAt(ds: seq<Point>, k: nat)
    requires forall d :: d in ds ==> IsInt32(d.x) && IsInt32(d.y)
    requires k < |ds|
    ensures ParamStream(ds)[2 * k] == ZigZagEncode(ds[k].x)
    ensures ParamStream(ds)[2 * k + 1] == ZigZagEncode(ds[k].y)
  {
    if k < |ds| - 1 {
      ParamStreamAt(ds[..|ds| - 1], k);
    }
  }

  /** What the C++ code's callers hand over for one ring: 32-bit values, a real start, at least one LineTo. */
  predicate RingInput(origin: Point, ds: seq<Point>) {
    && IsInt32(origin.x) && IsInt32(origin.y)
    && origin != NO_START
    && 1 <= |ds| < 0x1000_0000
    && (forall d :: d in ds ==> IsInt32(d.x) && IsInt32(d.y))
    && (forall v :: v in Vertices(origin, ds) ==> IsInt32(v.x) && IsInt32(v.y))
  }

  /** MoveTo(origin), LineTo(ds...), ClosePath: the stream of one polygon ring. */
  function RingGeometry(origin: Point, ds: seq<Point>): (g: seq<uint32>)
    requires RingInput(origin, ds)
    ensures |g| == 2 * |ds| + 5
  {
    [EncodeCommand(Command(Move, 1)), ZigZagEncode(origin.x), ZigZagEncode(origin.y),
     EncodeCommand(Command(Line, |ds|))] + ParamStream(ds) + [EncodeCommand(Command(Close, 1))]
  }

  /** The flat edges (vs[j], vs[j+1]) for j < k. */
  function PathEdges(vs: seq<Point>, k: nat): (es: seq<int>)
    requires k < |vs|
    ensures |es| == 4 * k
  {
    if k == 0 then []
    else PathEdges(vs, k - 1) + [vs[k - 1].x, vs[k - 1].y, vs[k].x, vs[k].y]
  }

  /** The path edges followed by the closing edge back to the first vertex. */
  function RingEdges(vs: seq<Point>): (es: seq<int>)
    requires |vs| > 0
    ensures |es| == 4 * |vs|
  {
    PathEdges(vs, |vs| - 1) + [vs[|vs| - 1].x, vs[|vs| - 1].y, vs[0].x, vs[0].y]
  }

  function FoldMinX(m: int, vs: seq<Point>): int decreases |vs| {
    if |vs| == 0 then m else FoldMinX(Min(m, vs[0].x), vs[1..])
  }
  function FoldMinY(m: int, vs: seq<Point>): int decreases |vs| {
    if |vs| == 0 then m else FoldMinY(Min(m, vs[0].y), vs[1..])
  }
  function FoldMaxX(m: int, vs: seq<Point>): int decreases |vs| {
    if |vs| == 0 then m else FoldMaxX(Max(m, vs[0].x), vs[1..])
  }
  function FoldMaxY(m: int, vs: seq<Point>): int decreases |vs| {
    if |vs| == 0 then m else FoldMaxY(Max(m, vs[0].y), vs[1..])
  }

  /** The midpoint of the vertices' bounding box, with the C++ code's 32-bit sum. */
  function BoxCentre(vs: seq<Point>): seq<int>
    requires |vs| > 0
  {
    [MidValue(FoldMinX(vs[0].x, vs[1..]), FoldMaxX(vs[0].x, vs[1..])),
     MidValue(FoldMinY(vs[0].y, vs[1..]), FoldMaxY(vs[0].y, vs[1..]))]
  }

  /** The decoder state after the MoveTo and k LineTo repetitions of a ring. */
  function RingState(vs: seq<Point>, k: nat): DecodeState
    requires k < |vs|
  {
    DecodeState(vs[k], if k == 0 then NO_START else vs[0], PathEdges(vs, k),
                FoldMinX(INT_MAX, vs[1..k + 1]), FoldMinY(INT_MAX, vs[1..k + 1]),
                FoldMaxX(INT_MIN, vs[1..k + 1]), FoldMaxY(INT_MIN, vs[1..k + 1]))
  }

  lemma {:induction false} FoldsAppend(m1: int, m2: int, m3: int, m4: int, vs: seq<Point>, v: Point)
    ensures FoldMinX(m1, vs + [v]) == Min(FoldMinX(m1, vs), v.x)
    ensures FoldMinY(m2, vs + [v]) == Min(FoldMinY(m2, vs), v.y)
    ensures FoldMaxX(m3, vs + [v]) == Max(FoldMaxX(m3, vs), v.x)
    ensures FoldMaxY(m4, vs + [v]) == Max(FoldMaxY(m4, vs), v.y)
    decreases |vs|
  {
    if |vs| > 0 {
      assert (vs + [v])[1..] == vs[1..] + [v];
      FoldsAppend(Min(m1, vs[0].x), Min(m2, vs[0].y), Max(m3, vs[0].x), Max(m4, vs[0].y), vs[1..], v);
    }
  }

  /** Each further vertex equals the previous one plus its delta. */
  lemma {:induction false} VerticesStep(origin: Point, ds: seq<Point>, k: nat)
    requires k < |ds|
    ensures Vertices(origin, ds)[k + 1] == AddPoint(Vertices(origin, ds)[k], ds[k])
    ensures Vertices(origin, ds[..k + 1]) == Vertices(origin, ds)[..k + 2]
    decreases |ds|
  {
    if k < |ds| - 1 {
      assert ds[..|ds| - 1][..k + 1] == ds[..k + 1];
      VerticesStep(origin, ds[..|ds| - 1], k);
    } else {
      assert ds[..k + 1] == ds;
    }
  }

  /** The k-th LineTo parameters of a ring decode to the k-th delta. */
  lemma RingParamsAt(origin: Point, ds: seq<Point>, k: nat)
    requires RingInput(origin, ds) && k < |ds|
    ensures DecodeParam(RingGeometry(origin, ds)[4 + 2 * k]) == ds[k].x
    ensures DecodeParam(RingGeometry(origin, ds)[4 + 2 * k + 1]) == ds[k].y
  {
    var g := RingGeometry(origin, ds);
    ParamStreamAt(ds, k);
    assert g[4 + 2 * k] == ParamStream(ds)[2 * k];
    assert g[4 + 2 * k + 1] == ParamStream(ds)[2 * k + 1];
    assert ds[k] in ds;
    DecodeParamRoundTrip(ds[k].x);
    DecodeParamRoundTrip(ds[k].y);
  }

  /** One LineTo repetition moves the ring state from vertex k to vertex k + 1. */
  lemma RingLineStep(origin: Point, ds: seq<Point>, k: nat)
    requires origin != NO_START && k < |ds|
    ensures LineStep(RingState(Vertices(origin, ds), k), ds[k].x, ds[k].y) == RingState(Vertices(origin, ds), k + 1)
  {
    var vs := Vertices(origin, ds);
    VerticesStep(origin, ds, k);
    assert vs[1..k + 2] == vs[1..k + 1] + [vs[k + 1]];
    FoldsAppend(INT_MAX, INT_MAX, INT_MIN, INT_MIN, vs[1..k + 1], vs[k + 1]);
  }

  /** Each state of sts is the one before it after the LineTo with the matching delta. */
  predicate LinkedByLines(ds: seq<Point>, sts: seq<DecodeState>)
    requires |sts| == |ds| + 1
  {
    forall j :: 0 <= j < |ds| ==> LineStep(sts[j], ds[j].x, ds[j].y) == sts[j + 1]
  }

  /** LineTo repetitions, from the k-th on, over a stream carrying ds, through states linked by LineStep. */
  lemma {:induction false} LinesThrough(g: seq<uint32>, ds: seq<Point>, sts: seq<DecodeState>, k: nat)
    requires |sts| == |ds| + 1 && k <= |ds| && 4 + 2 * |ds| <= |g|
    requires CarriesDeltas(g, ds) && LinkedByLines(ds, sts)
    ensures Repeat(g, 4 + 2 * k, Line, |ds| - k, sts[k]) == (sts[|ds|], 4 + 2 * |ds|)
    decreases |ds| - k
  {
    if k < |ds| {
      assert LineStep(sts[k], ds[k].x, ds[k].y) == sts[k + 1];
      LineHead(g, 4 + 2 * k, |ds| - k, sts[k], 4 + 2 * (k + 1), |ds| - (k + 1), ds[k].x, ds[k].y);
      LinesThrough(g, ds, sts, k + 1);
    }
  }

  /** The ring's states, from the MoveTo to the last LineTo. */
  function RingStates(vs: seq<Point>): (sts: seq<DecodeState>)
    requires |vs| > 0
    ensures |sts| == |vs| && forall j :: 0 <= j < |vs| ==> sts[j] == RingState(vs, j)
  {
    seq(|vs|, j requires 0 <= j < |vs| => RingState(vs, j))
  }

  /** Consecutive ring states are one LineTo apart. */
  lemma RingStatesLinked(origin: Point, ds: seq<Point>)
    requires origin != NO_START
    ensures LinkedByLines(ds, RingStates(Vertices(origin, ds)))
  {
    var sts := RingStates(Vertices(origin, ds));
    forall j | 0 <= j < |ds| ensures LineStep(sts[j], ds[j].x, ds[j].y) == sts[j + 1] {
      RingLineStep(origin, ds, j);
    }
  }

  /** The LineTo parameters from index 4 on decode to the deltas ds. */
  predicate CarriesDeltas(g: seq<uint32>, ds: seq<Point>)
    requires 4 + 2 * |ds| <= |g|
  {
    forall j :: 0 <= j < |ds| ==> DecodeParam(g[4 + 2 * j]) == ds[j].x && DecodeParam(g[4 + 2 * j + 1]) == ds[j].y
  }

  /** The first of `count` LineTo repetitions, then the rest. */
  lemma LineHead(g: seq<uint32>, i: nat, count: nat, st: DecodeState, j: nat, rest: nat, dx: int, dy: int)
    requires count > 0 && j == i + 2 && rest == count - 1 && i + 2 * count <= |g|
    requires DecodeParam(g[i]) == dx && DecodeParam(g[i + 1]) == dy
    ensures Repeat(g, i, Line, count, st) == Repeat(g, j, Line, rest, LineStep(st, dx, dy))
  {
  }

  lemma {:induction false} RingParamsPresent(origin: Point, ds: seq<Point>)
    requires RingInput(origin, ds)
    ensures ParamsPresent(RingGeometry(origin, ds))
  {
    var g := RingGeometry(origin, ds);
    var n := |ds|;
    assert DecodeCommand(g[2 * n + 4]) == Some(Command(Close, 1));
    assert ParamsPresentFrom(g, 2 * n + 5);
    assert ParamsPresentFrom(g, 2 * n + 4);
    assert DecodeCommand(g[3]) == Some(Command(Line, n)) by {
      DecodeCommandRoundTrip(Command(Line, n));
    }
    assert ParamsPresentFrom(g, 3);
    assert DecodeCommand(g[0]) == Some(Command(Move, 1));
  }

  /** With 32-bit vertices, folding the sentinel box over them and widening by the start gives the plain box. */
  lemma {:induction false} FoldsFromSentinel(vs: seq<Point>)
    requires |vs| > 1
    requires forall v :: v in vs ==> IsInt32(v.x) && IsInt32(v.y)
    ensures Min(FoldMinX(INT_MAX, vs[1..]), vs[0].x) == FoldMinX(vs[0].x, vs[1..])
    ensures Min(FoldMinY(INT_MAX, vs[1..]), vs[0].y) == FoldMinY(vs[0].y, vs[1..])
    ensures Max(FoldMaxX(INT_MIN, vs[1..]), vs[0].x) == FoldMaxX(vs[0].x, vs[1..])
    ensures Max(FoldMaxY(INT_MIN, vs[1..]), vs[0].y) == FoldMaxY(vs[0].y, vs[1..])
  {
    var ws := vs[1..];
    assert ws[0] in vs;
    FoldShift(INT_MAX, INT_MIN, vs[0], ws);
  }

  /** Folding from a 32-bit start point equals folding from the sentinels and widening afterwards. */
  lemma {:induction false} FoldShift(hi: int, lo: int, p: Point, ws: seq<Point>)
    requires hi == INT_MAX && lo == INT_MIN && IsInt32(p.x) && IsInt32(p.y)
    requires |ws| > 0 && forall w :: w in ws ==> IsInt32(w.x) && IsInt32(w.y)
    ensures Min(FoldMinX(hi, ws), p.x) == FoldMinX(p.x, ws)
    ensures Min(FoldMinY(hi, ws), p.y) == FoldMinY(p.y, ws)
    ensures Max(FoldMaxX(lo, ws), p.x) == FoldMaxX(p.x, ws)
    ensures Max(FoldMaxY(lo, ws), p.y) == FoldMaxY(p.y, ws)
  {
    FoldCommutes(Min(hi, ws[0].x), Min(hi, ws[0].y), Max(lo, ws[0].x), Max(lo, ws[0].y), p, ws[1..]);
    assert Min(hi, ws[0].x) == ws[0].x && Max(lo, ws[0].x) == ws[0].x;
    assert Min(hi, ws[0].y) == ws[0].y && Max(lo, ws[0].y) == ws[0].y;
    FoldCommutes(p.x, p.y, p.x, p.y, ws[0], ws[1..]);
  }

  /** Widening the fold's seed by a point commutes with the fold. */
  lemma {:induction false} FoldCommutes(a: int, b: int, c: int, d: int, p: Point, ws: seq<Point>)
    ensures Min(FoldMinX(a, ws), p.x) == FoldMinX(Min(a, p.x), ws)
    ensures Min(FoldMinY(b, ws), p.y) == FoldMinY(Min(b, p.y), ws)
    ensures Max(FoldMaxX(c, ws), p.x) == FoldMaxX(Max(c, p.x), ws)
    ensures Max(FoldMaxY(d, ws), p.y) == FoldMaxY(Max(d, p.y), ws)
    decreases |ws|
  {
    if |ws| > 0 {
      FoldCommutes(Min(a, ws[0].x), Min(b, ws[0].y), Max(c, ws[0].x), Max(d, ws[0].y), p, ws[1..]);
      assert Min(Min(a, p.x), ws[0].x) == Min(Min(a, ws[0].x), p.x);
      assert Min(Min(b, p.y), ws[0].y) == Min(Min(b, ws[0].y), p.y);
      assert Max(Max(c, p.x), ws[0].x) == Max(Max(c, ws[0].x), p.x);
      assert Max(Max(d, p.y), ws[0].y) == Max(Max(d, ws[0].y), p.y);
    }
  }

  /** The command words and the MoveTo parameters of a ring stream decode as written. */
  lemma RingWords(origin: Point, ds: seq<Point>)
    requires RingInput(origin, ds)
    ensures var g := RingGeometry(origin, ds);
      && DecodeCommand(g[0]) == Some(Command(Move, 1))
      && DecodeParam(g[1]) == origin.x && DecodeParam(g[2]) == origin.y
      && DecodeCommand(g[3]) == Some(Command(Line, |ds|))
      && DecodeCommand(g[2 * |ds| + 4]) == Some(Command(Close, 1))
      && (forall j :: 0 <= j < |ds| ==> DecodeParam(g[4 + 2 * j]) == ds[j].x && DecodeParam(g[4 + 2 * j + 1]) == ds[j].y)
  {
    var g := RingGeometry(origin, ds);
    DecodeParamRoundTrip(origin.x);
    DecodeParamRoundTrip(origin.y);
    DecodeCommandRoundTrip(Command(Line, |ds|));
    forall j | 0 <= j < |ds|
      ensures DecodeParam(g[4 + 2 * j]) == ds[j].x && DecodeParam(g[4 + 2 * j + 1]) == ds[j].y
    {
      RingParamsAt(origin, ds, j);
    }
  }

  /** Running the whole ring stream ends in the state after its last LineTo, closed. */
  lemma RingRun(g: seq<uint32>, origin: Point, ds: seq<Point>)
    requires origin != NO_START && |g| == 2 * |ds| + 5 && ParamsPresent(g)
    requires DecodeCommand(g[0]) == Some(Command(Move, 1))
    requires DecodeParam(g[1]) == origin.x && DecodeParam(g[2]) == origin.y
    requires DecodeCommand(g[3]) == Some(Command(Line, |ds|))
    requires DecodeCommand(g[2 * |ds| + 4]) == Some(Command(Close, 1))
    requires forall j :: 0 <= j < |ds| ==> DecodeParam(g[4 + 2 * j]) == ds[j].x && DecodeParam(g[4 + 2 * j + 1]) == ds[j].y
    ensures Run(g, 0, InitState) == Some(CloseStep(RingState(Vertices(origin, ds), |ds|)))
  {
    var first := RingState(Vertices(origin, ds), 0);
    RingMoveTo(g, origin, ds);
    RunHead(g, 0, InitState, Move, 1, 1, first, 3);
    assert CarriesDeltas(g, ds);
    RingRunAfterMove(g, origin, ds);
  }

  /** After the MoveTo: the LineTo run, then the closing ClosePath. */
  lemma RingRunAfterMove(g: seq<uint32>, origin: Point, ds: seq<Point>)
    requires origin != NO_START && |g| == 2 * |ds| + 5 && ParamsPresentFrom(g, 3)
    requires DecodeCommand(g[3]) == Some(Command(Line, |ds|))
    requires DecodeCommand(g[2 * |ds| + 4]) == Some(Command(Close, 1))
    requires CarriesDeltas(g, ds)
    ensures Run(g, 3, RingState(Vertices(origin, ds), 0)) == Some(CloseStep(RingState(Vertices(origin, ds), |ds|)))
  {
    var vs := Vertices(origin, ds);
    var n := |ds|;
    var first, closing := RingState(vs, 0), RingState(vs, n);
    var e := 2 * n + 4;
    RingLinesFromStart(g, origin, ds);
    RunHead(g, 3, first, Line, n, 4, closing, e);
    CloseTail(g, e, closing);
  }

  /** The ring's MoveTo puts the cursor on the origin, the first vertex. */
  lemma RingMoveTo(g: seq<uint32>, origin: Point, ds: seq<Point>)
    requires 3 <= |g| && DecodeParam(g[1]) == origin.x && DecodeParam(g[2]) == origin.y
    ensures Repeat(g, 1, Move, 1, InitState) == (RingState(Vertices(origin, ds), 0), 3)
  {
    var vs := Vertices(origin, ds);
    assert vs[1..1] == [];
    assert MoveStep(InitState, origin.x, origin.y) == RingState(vs, 0);
  }

  /** A stream ending in one ClosePath word closes the ring and stops. */
  lemma CloseTail(g: seq<uint32>, e: nat, st: DecodeState)
    requires ParamsPresentFrom(g, e) && e + 1 == |g| && DecodeCommand(g[e]) == Some(Command(Close, 1))
    ensures Run(g, e, st) == Some(CloseStep(st))
  {
    assert Repeat(g, e + 1, Close, 1, st) == (CloseStep(st), e + 1);
  }

  /** One command word of a well-formed stream: its repetitions, then the rest of the stream. */
  lemma RunHead(g: seq<uint32>, i: nat, st: DecodeState, kind: CommandType, count: nat, j: nat, after: DecodeState, next: nat)
    requires ParamsPresentFrom(g, i) && i < |g| && DecodeCommand(g[i]) == Some(Command(kind, count)) && j == i + 1
    requires kind == Close || j + 2 * count <= |g|
    requires Repeat(g, j, kind, count, st) == (after, next)
    ensures ParamsPresentFrom(g, next) && Run(g, i, st) == Run(g, next, after)
  {
    var c := Command(kind, count);
    assert next == i + 1 + Consumed(c);
    assert ParamsPresentFrom(g, i + 1 + Consumed(c));
  }

  lemma RingLinesFromStart(g: seq<uint32>, origin: Point, ds: seq<Point>)
    requires origin != NO_START && 4 + 2 * |ds| <= |g|
    requires CarriesDeltas(g, ds)
    ensures Repeat(g, 4, Line, |ds|, RingState(Vertices(origin, ds), 0)) == (RingState(Vertices(origin, ds), |ds|), 2 * |ds| + 4)
  {
    var sts := RingStates(Vertices(origin, ds));
    RingStatesLinked(origin, ds);
    LinesThrough(g, ds, sts, 0);
    assert sts[0] == RingState(Vertices(origin, ds), 0) && sts[|ds|] == RingState(Vertices(origin, ds), |ds|);
  }


  /** The closed ring state's centre is the midpoint of the vertices' box. */
  lemma RingCentre(vs: seq<Point>)
    requires |vs| > 1 && vs[0] != NO_START
    requires forall v :: v in vs ==> IsInt32(v.x) && IsInt32(v.y)
    ensures Centre(CloseStep(RingState(vs, |vs| - 1))) == BoxCentre(vs)
  {
    assert vs[1..|vs|] == vs[1..];
    FoldsFromSentinel(vs);
  }

  /**
   * The stream MoveTo(origin), LineTo(d1 .. dn), ClosePath decodes to the
   * closed ring over the vertices origin, origin + d1, ...: one edge per
   * LineTo from the cursor before to the cursor after, then the closing
   * edge back to the first vertex. The centre is the midpoint of the
   * vertices' bounding box.
   */
  lemma RingDecodes(origin: Point, ds: seq<Point>)
    requires RingInput(origin, ds)
    ensures ParamsPresent(RingGeometry(origin, ds))
    ensures var r := Run(RingGeometry(origin, ds), 0, InitState);
      && r.Some?
      && r.value.edges == RingEdges(Vertices(origin, ds))
      && Centre(r.value) == BoxCentre(Vertices(origin, ds))
  {
    RingParamsPresent(origin, ds);
    RingWords(origin, ds);
    RingRun(RingGeometry(origin, ds), origin, ds);
    RingCentre(Vertices(origin, ds));
  }

  /** The k-th edge of a ring goes from vertex k to vertex k + 1, wrapping to vertex 0. */
  lemma {:induction false} RingEdgeAt(vs: seq<Point>, k: nat)
    requires k < |vs|
    ensures EdgeCount(RingEdges(vs)) == |vs|
    ensures EdgeAt(RingEdges(vs), k) == (vs[k], vs[(k + 1) % |vs|])
  {
    var n := |vs|;
    var es := RingEdges(vs);
    var path := PathEdges(vs, n - 1);
    var j := 4 * k;
    if k < n - 1 {
      PathEdgeAt(vs, n - 1, k);
      assert es[j] == path[j] && es[j + 1] == path[j + 1] && es[j + 2] == path[j + 2] && es[j + 3] == path[j + 3];
      ModBelow(k + 1, n);
    } else {
      assert j == |path|;
      ModSelf(n);
    }
  }

  lemma {:induction false} PathEdgeAt(vs: seq<Point>, m: nat, k: nat)
    requires k < m < |vs|
    ensures var es := PathEdges(vs, m);
      es[4 * k] == vs[k].x && es[4 * k + 1] == vs[k].y && es[4 * k + 2] == vs[k + 1].x && es[4 * k + 3] == vs[k + 1].y
  {
    if k < m - 1 {
      PathEdgeAt(vs, m - 1, k);
    }
  }

  /** Consecutive ring edges share their joining vertex, and the last edge returns to the first. */
  lemma RingIsClosed(vs: seq<Point>, k: nat)
    requires k < |vs|
    ensures EdgeCount(RingEdges(vs)) == |vs|
    ensures EdgeAt(RingEdges(vs), k).1 == EdgeAt(RingEdges(vs), (k + 1) % |vs|).0
  {
    RingEdgeAt(vs, k);
    RingEdgeAt(vs, (k + 1) % |vs|);
  }

  // ---------------------------------------------------------------------
  // parse_tile keeps exactly the successful decodes

  /** A shape is kept exactly when some feature decodes to it. */
  lemma {:induction false} DecodedShapesMembers(features: seq<Feature>, layer: Layer, s: BuildingShape)
    requires forall f :: f in features ==> TagsInRange(f, layer) && ParamsPresent(f.geometry)
    ensures s in DecodedShapes(features, layer) <==> exists f :: f in features && DecodeFeatureSpec(f, layer) == Some(s)
  {
    if |features| > 0 {
      DecodedShapesMembers(features[1..], layer, s);
      assert forall f :: f in features <==> f == features[0] || f in features[1..];
    }
  }

  /** Every shape parse_tile returns carries an osid, whole edges and a two-entry centre. */
  lemma ParsedShapesValid(ftile: FullTile)
    requires TileWellFormed(ftile)
    ensures forall s :: s in ParseTileSpec(ftile).shapes ==>
      s.osid.Some? && IsBuildingShapeValid(s) && |s.edges| % 4 == 0
  {
    match FindLayer(ftile.layers, BUILDINGS_LAYER)
    case None =>
    case Some(layer) =>
      forall s | s in ParseTileSpec(ftile).shapes
        ensures s.osid.Some? && IsBuildingShapeValid(s) && |s.edges| % 4 == 0
      {
        DecodedShapesMembers(layer.features, layer, s);
        var f :| f in layer.features && DecodeFeatureSpec(f, layer) == Some(s);
        DecodeFeatureOutcome(f, layer);
      }
  }
}
