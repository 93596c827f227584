/**
 * The vector-tile test program: an older copy of the geometry decoder that
 * reads the "Local_buildings" layer of a tile. Its command and parameter
 * decoding are the engine's (`TileDecoder.DecodeCommand`,
 * `BuildingShapeHeader.DecodeParam`); it differs from the engine in three
 * ways that are modelled here:
 *  - the bounding box takes the cursor BEFORE each LineTo moves it, and the
 *    cursor at each ClosePath, and is not widened by the ring start;
 *  - a bad command word clears the edges and stops, but the centre is still
 *    appended afterwards, so every decoded feature has two centre entries;
 *  - the centre is `(min + max) / 2.0`, a double, not an integer.
 * The tile test keeps the decoded features with two centre entries, which
 * is all of them.
 */
module VectorTileTest {
  import opened Wrappers
  import opened CppInt
  import opened BuildingShapeHeader
  import opened TileDecoder

  const LOCAL_BUILDINGS: string := "Local_buildings"

  /** The test program's decoded feature: flat edges and a centre of doubles. */
  datatype BuildingFeature = BuildingFeature(edges: seq<int>, approxCentre: seq<real>)

  predicate IsBuildingFeatureValid(f: BuildingFeature) {
    |f.approxCentre| == 2
  }

  /** A layer after `Clear()`: no name, no keys, values or features. */
  const ClearedLayer: Layer := Layer("", [], [], [])

  // ---------------------------------------------------------------------
  // get_local_buildings_layer

  /** The first layer named "Local_buildings", or the cleared layer when there is none. */
  method GetLocalBuildingsLayer(tile: FullTile) returns (found: bool, res: Layer)
    ensures found == FindLayer(tile.layers, LOCAL_BUILDINGS).Some?
    ensures res == if found then FindLayer(tile.layers, LOCAL_BUILDINGS).value else ClearedLayer
  {
    res := ClearedLayer;
    var i := 0;
    while i != |tile.layers|
      invariant 0 <= i <= |tile.layers|
      invariant FindLayer(tile.layers[i..], LOCAL_BUILDINGS) == FindLayer(tile.layers, LOCAL_BUILDINGS)
    {
      res := tile.layers[i];
      if res.name == LOCAL_BUILDINGS {
        return true, res;
      }
      assert tile.layers[i..][1..] == tile.layers[i + 1..];
      i := i + 1;
    }
    res := ClearedLayer;
    return false, res;
  }

  /** FindLayer finds a layer exactly when one has the name, and then it is the first such layer. */
  lemma FindLayerIsFirst(layers: seq<Layer>, name: string)
    ensures FindLayer(layers, name).Some? <==> exists i :: 0 <= i < |layers| && layers[i].name == name
    ensures FindLayer(layers, name).Some? ==>
      exists i :: 0 <= i < |layers| && layers[i] == FindLayer(layers, name).value &&
        forall j :: 0 <= j < i ==> layers[j].name != name
  {
    if FindLayer(layers, name).Some? {
      var i := FindLayerIndex(layers, name);
      assert layers[i].name == name;
    }
  }

  /** The position of the layer FindLayer finds: no layer before it has the name. */
  lemma {:induction false} FindLayerIndex(layers: seq<Layer>, name: string) returns (i: nat)
    requires FindLayer(layers, name).Some?
    ensures i < |layers| && layers[i] == FindLayer(layers, name).value
    ensures forall j :: 0 <= j < i ==> layers[j].name != name
  {
    if layers[0].name == name {
      i := 0;
    } else {
      var rest := layers[1..];
      var k := FindLayerIndex(rest, name);
      i := k + 1;
      assert layers[i] == rest[k];
      forall j | 0 <= j < i ensures layers[j].name != name {
        if j > 0 {
          assert layers[j] == rest[j - 1];
        }
      }
    }
  }

  // ---------------------------------------------------------------------
  // decode_feature of the test program

  /** One LineTo repetition: the edge (cursor, cursor + delta); the box takes the cursor before the move. */
  function VariantLineStep(st: DecodeState, dx: int, dy: int): DecodeState {
    var start := if st.start == NO_START then st.cursor else st.start;
    var c := Point(st.cursor.x + dx, st.cursor.y + dy);
    DecodeState(c, start, st.edges + [st.cursor.x, st.cursor.y, c.x, c.y],
                Min(st.minX, st.cursor.x), Min(st.minY, st.cursor.y),
                Max(st.maxX, st.cursor.x), Max(st.maxY, st.cursor.y))
  }

  /** One ClosePath repetition: the edge (cursor, start); the box takes the cursor. */
  function VariantCloseStep(st: DecodeState): DecodeState {
    st.(edges := st.edges + [st.cursor.x, st.cursor.y, st.start.x, st.start.y],
        minX := Min(st.minX, st.cursor.x), minY := Min(st.minY, st.cursor.y),
        maxX := Max(st.maxX, st.cursor.x), maxY := Max(st.maxY, st.cursor.y))
  }

  /** `count` repetitions of one command whose parameters start at index i. */
  function VariantRepeat(geom: seq<uint32>, i: nat, kind: CommandType, count: nat, st: DecodeState): (r: (DecodeState, nat))
    requires kind == Close || i + 2 * count <= |geom|
    ensures r.1 == i + (if kind == Close then 0 else 2 * count)
    decreases count
  {
    if count == 0 then (st, i)
    else match kind
      case Move => VariantRepeat(geom, i + 2, kind, count - 1, MoveStep(st, DecodeParam(geom[i]), DecodeParam(geom[i + 1])))
      case Line => VariantRepeat(geom, i + 2, kind, count - 1, VariantLineStep(st, DecodeParam(geom[i]), DecodeParam(geom[i + 1])))
      case Close => VariantRepeat(geom, i, kind, count - 1, VariantCloseStep(st))
  }

  /** Decodes the stream from index i on; a bad command word clears the edges and stops. */
  function VariantRun(geom: seq<uint32>, i: nat, st: DecodeState): DecodeState
    requires ParamsPresentFrom(geom, i)
    decreases |geom| - i
  {
    if i >= |geom| then st
    else match DecodeCommand(geom[i])
      case None => st.(edges := [])
      case Some(c) =>
        var next := VariantRepeat(geom, i + 1, c.kind, c.count, st);
        VariantRun(geom, next.1, next.0)
  }

  /**
   * The command loop as evidently intended: a command whose parameters run
   * past the end of the stream is rejected like a bad command word. As
   * written, `while (i != geometry_sz)` steps over the size after such a
   * command and goes on reading past the end.
   */
  function VariantRunChecked(geom: seq<uint32>, i: nat, st: DecodeState): DecodeState
    decreases |geom| - i
  {
    if i >= |geom| then st
    else match DecodeCommand(geom[i])
      case None => st.(edges := [])
      case Some(c) =>
        if i + 1 + Consumed(c) > |geom| then st.(edges := [])
        else
          var next := VariantRepeat(geom, i + 1, c.kind, c.count, st);
          VariantRunChecked(geom, next.1, next.0)
  }

  /** `(min + max) / 2.0` per axis: a 32-bit `int` sum converted to a double. */
  function VariantCentre(st: DecodeState): seq<real> {
    [Wrap32(st.minX + st.maxX) as real / 2.0, Wrap32(st.minY + st.maxY) as real / 2.0]
  }

  /** What the test program's decode_feature yields for a geometry stream. */
  function VariantDecode(geom: seq<uint32>): BuildingFeature
    requires ParamsPresent(geom)
  {
    var st := VariantRun(geom, 0, InitState);
    BuildingFeature(st.edges, VariantCentre(st))
  }

  /** decode_feature of the test program: the command loop, then the centre, whatever happened. */
  method DecodeFeatureVariant(feat: Feature) returns (res: BuildingFeature)
    requires ParamsPresent(feat.geometry)
    ensures res == VariantDecode(feat.geometry)
  {
    var geom := feat.geometry;
    var i: nat := 0;
    var st := InitState;
    while i != |geom|
      invariant i <= |geom| && ParamsPresentFrom(geom, i)
      invariant VariantRun(geom, i, st) == VariantRun(geom, 0, InitState)
      decreases |geom| - i
    {
      var cmd := DecodeCommand(geom[i]);
      i := i + 1;
      if cmd.None? {
        st := st.(edges := []);
        break;
      }
      st, i := RepeatVariant(geom, i, cmd.value.kind, cmd.value.count, st);
    }
    res := BuildingFeature(st.edges, VariantCentre(st));
  }

  /** The inner `for (; count > 0; count--)` loop of the test program's decode_feature. */
  method RepeatVariant(geom: seq<uint32>, i0: nat, kind: CommandType, count0: nat, st0: DecodeState)
    returns (st: DecodeState, i: nat)
    requires kind == Close || i0 + 2 * count0 <= |geom|
    ensures (st, i) == VariantRepeat(geom, i0, kind, count0, st0)
  {
    var cursor, start, edges := st0.cursor, st0.start, st0.edges;
    var minX, minY, maxX, maxY := st0.minX, st0.minY, st0.maxX, st0.maxY;
    i := i0;
    var count := count0;
    while count > 0
      invariant kind == Close || i + 2 * count <= |geom|
      invariant VariantRepeat(geom, i, kind, count, DecodeState(cursor, start, edges, minX, minY, maxX, maxY))
             == VariantRepeat(geom, i0, kind, count0, st0)
    {
      if kind == Move {
        cursor := Point(cursor.x + DecodeParam(geom[i]), cursor.y + DecodeParam(geom[i + 1]));
        i := i + 2;
      } else if kind == Line {
        ghost var before := DecodeState(cursor, start, edges, minX, minY, maxX, maxY);
        if start == NO_START {
          start := cursor;
        }
        edges := edges + [cursor.x, cursor.y];
        minX, maxX := Min(minX, cursor.x), Max(maxX, cursor.x);
        minY, maxY := Min(minY, cursor.y), Max(maxY, cursor.y);
        cursor := Point(cursor.x + DecodeParam(geom[i]), cursor.y + DecodeParam(geom[i + 1]));
        edges := edges + [cursor.x, cursor.y];
        assert DecodeState(cursor, start, edges, minX, minY, maxX, maxY)
            == VariantLineStep(before, DecodeParam(geom[i]), DecodeParam(geom[i + 1]));
        i := i + 2;
      } else {
        edges := edges + [cursor.x, cursor.y, start.x, start.y];
        minX, maxX := Min(minX, cursor.x), Max(maxX, cursor.x);
        minY, maxY := Min(minY, cursor.y), Max(maxY, cursor.y);
      }
      count := count - 1;
    }
    st := DecodeState(cursor, start, edges, minX, minY, maxX, maxY);
  }

  // ---------------------------------------------------------------------
  // The filter of test_get_tile

  /** The decoded features that pass the validity test, in feature order. */
  function KeptFeatures(features: seq<Feature>): seq<BuildingFeature>
    requires forall f :: f in features ==> ParamsPresent(f.geometry)
  {
    if |features| == 0 then []
    else
      var b := VariantDecode(features[0].geometry);
      (if IsBuildingFeatureValid(b) then [b] else []) + KeptFeatures(features[1..])
  }

  lemma KeptFeaturesAppend(features: seq<Feature>, f: Feature)
    requires forall g :: g in features + [f] ==> ParamsPresent(g.geometry)
    ensures var b := VariantDecode(f.geometry);
      KeptFeatures(features + [f]) == KeptFeatures(features) + (if IsBuildingFeatureValid(b) then [b] else [])
  {
    if |features| > 0 {
      assert (features + [f])[1..] == features[1..] + [f];
      KeptFeaturesAppend(features[1..], f);
    }
  }

  /**
   * test_get_tile up to its printing: read the local buildings layer
   * (nothing when it is missing), decode every feature and keep the valid
   * ones.
   */
  method TestGetTile(tile: FullTile) returns (bfeats: seq<BuildingFeature>)
    requires var l := FindLayer(tile.layers, LOCAL_BUILDINGS);
      l.Some? ==> forall f :: f in l.value.features ==> ParamsPresent(f.geometry)
    ensures var l := FindLayer(tile.layers, LOCAL_BUILDINGS);
      bfeats == if l.Some? then KeptFeatures(l.value.features) else []
  {
    var found, layer := GetLocalBuildingsLayer(tile);
    if !found {
      return [];
    }
    bfeats := [];
    var i := 0;
    while i != |layer.features|
      invariant 0 <= i <= |layer.features|
      invariant bfeats == KeptFeatures(layer.features[..i])
    {
      var feat := layer.features[i];
      var bfeat := DecodeFeatureVariant(feat);
      if IsBuildingFeatureValid(bfeat) {
        bfeats := bfeats + [bfeat];
      }
      KeptFeaturesAppend(layer.features[..i], feat);
      assert layer.features[..i + 1] == layer.features[..i] + [feat];
      i := i + 1;
    }
    assert layer.features[..i] == layer.features;
  }
}

/** Properties of the test program's decoder, against the engine's. */
module VectorTileTestProperties {
  import opened Wrappers
  import opened CppInt
  import opened BuildingShapeHeader
  import opened TileDecoder
  import opened VectorTileTest

  /** Every decoded feature has a two-entry centre, failed decodes included. */
  lemma VariantAlwaysValid(geom: seq<uint32>)
    requires ParamsPresent(geom)
    ensures IsBuildingFeatureValid(VariantDecode(geom))
  {
  }

  /** So the test's filter keeps every feature: one decoded feature per feature, in order. */
  lemma {:induction false} FilterKeepsAll(features: seq<Feature>)
    requires forall f :: f in features ==> ParamsPresent(f.geometry)
    ensures |KeptFeatures(features)| == |features|
    ensures forall i :: 0 <= i < |features| ==> KeptFeatures(features)[i] == VariantDecode(features[i].geometry)
  {
    if |features| > 0 {
      FilterKeepsAll(features[1..]);
      VariantAlwaysValid(features[0].geometry);
      var rest := KeptFeatures(features[1..]);
      assert KeptFeatures(features) == [VariantDecode(features[0].geometry)] + rest;
      forall i | 0 < i < |features|
        ensures KeptFeatures(features)[i] == VariantDecode(features[i].geometry)
      {
        assert features[1..][i - 1] == features[i];
      }
    }
  }

  /** Cursor, ring start and edges agree; only the bounding boxes may differ. */
  predicate SameTrack(st: DecodeState, vst: DecodeState) {
    st.cursor == vst.cursor && st.start == vst.start && st.edges == vst.edges
  }

  lemma {:induction false} RepeatSameTrack(geom: seq<uint32>, i: nat, kind: CommandType, count: nat, st: DecodeState, vst: DecodeState)
    requires kind == Close || i + 2 * count <= |geom|
    requires SameTrack(st, vst)
    ensures SameTrack(Repeat(geom, i, kind, count, st).0, VariantRepeat(geom, i, kind, count, vst).0)
    decreases count
  {
    if count > 0 {
      match kind
      case Move =>
        RepeatSameTrack(geom, i + 2, kind, count - 1,
          MoveStep(st, DecodeParam(geom[i]), DecodeParam(geom[i + 1])),
          MoveStep(vst, DecodeParam(geom[i]), DecodeParam(geom[i + 1])));
      case Line =>
        RepeatSameTrack(geom, i + 2, kind, count - 1,
          LineStep(st, DecodeParam(geom[i]), DecodeParam(geom[i + 1])),
          VariantLineStep(vst, DecodeParam(geom[i]), DecodeParam(geom[i + 1])));
      case Close =>
        RepeatSameTrack(geom, i, kind, count - 1, CloseStep(st), VariantCloseStep(vst));
    }
  }

  lemma {:induction false} RunSameTrack(geom: seq<uint32>, i: nat, st: DecodeState, vst: DecodeState)
    requires ParamsPresentFrom(geom, i) && SameTrack(st, vst)
    ensures Run(geom, i, st).Some? ==> VariantRun(geom, i, vst).edges == Run(geom, i, st).value.edges
    ensures Run(geom, i, st).None? ==> VariantRun(geom, i, vst).edges == []
    decreases |geom| - i
  {
    if i < |geom| && DecodeCommand(geom[i]).Some? {
      var c := DecodeCommand(geom[i]).value;
      var next := Repeat(geom, i + 1, c.kind, c.count, st);
      var vnext := VariantRepeat(geom, i + 1, c.kind, c.count, vst);
      RepeatSameTrack(geom, i + 1, c.kind, c.count, st, vst);
      RunSameTrack(geom, next.1, next.0, vnext.0);
    }
  }

  /**
   * The test program emits the engine's edges: the same list when the
   * engine's decode succeeds, and none when a command word is bad.
   */
  lemma VariantEdgesAgree(geom: seq<uint32>)
    requires ParamsPresent(geom)
    ensures Run(geom, 0, InitState).Some? ==> VariantDecode(geom).edges == Run(geom, 0, InitState).value.edges
    ensures Run(geom, 0, InitState).None? ==> VariantDecode(geom).edges == []
  {
    RunSameTrack(geom, 0, InitState, InitState);
  }

  /** With no geometry at all the box keeps its sentinels and the centre is (-0.5, -0.5). */
  lemma EmptyGeometryCentre()
    ensures VariantDecode([]) == BuildingFeature([], [-0.5, -0.5])
  {
    assert Wrap32(INT_MAX + INT_MIN) == -1;
  }

  /** The words of the segment MoveTo(0, 0), LineTo(+2, +2), and a word that is no command. */
  lemma SegmentWords()
    ensures DecodeCommand(9) == Some(Command(Move, 1)) && DecodeCommand(10) == Some(Command(Line, 1))
    ensures DecodeCommand(4) == None
    ensures DecodeParam(0) == 0 && DecodeParam(4) == 2
  {
  }

  /** A stream that opens with the segment MoveTo(0, 0), LineTo(+2, +2). */
  predicate OpensWithSegment(g: seq<uint32>) {
    6 <= |g| && g[0] == 9 && g[1] == 0 && g[2] == 0 && g[3] == 10 && g[4] == 4 && g[5] == 4
  }

  /** Each command of the segment moves the cursor the same way in both decoders; only the box differs. */
  lemma SegmentRepeats(g: seq<uint32>)
    requires OpensWithSegment(g)
    ensures Repeat(g, 1, Move, 1, InitState) == (MoveStep(InitState, 0, 0), 3)
    ensures VariantRepeat(g, 1, Move, 1, InitState) == (MoveStep(InitState, 0, 0), 3)
    ensures Repeat(g, 4, Line, 1, MoveStep(InitState, 0, 0)) == (LineStep(MoveStep(InitState, 0, 0), 2, 2), 6)
    ensures VariantRepeat(g, 4, Line, 1, MoveStep(InitState, 0, 0)) == (VariantLineStep(MoveStep(InitState, 0, 0), 2, 2), 6)
  {
    SegmentWords();
  }

  /** A stream whose remainder after the segment is readable is readable. */
  lemma SegmentParamsPresent(g: seq<uint32>)
    requires OpensWithSegment(g) && ParamsPresentFrom(g, 6)
    ensures ParamsPresentFrom(g, 3) && ParamsPresent(g)
  {
    SegmentWords();
    assert ParamsPresentFrom(g, 3);
  }

  /** One command of the test program's loop: its repetitions, then the rest of the stream. */
  lemma VariantRunAt(g: seq<uint32>, i: nat, st: DecodeState)
    requires ParamsPresentFrom(g, i) && i < |g| && DecodeCommand(g[i]).Some?
    ensures var c := DecodeCommand(g[i]).value;
            i + 1 + Consumed(c) <= |g| && ParamsPresentFrom(g, i + 1 + Consumed(c)) &&
            VariantRun(g, i, st) == VariantRun(g, i + 1 + Consumed(c), VariantRepeat(g, i + 1, c.kind, c.count, st).0)
  {
  }

  /** The engine runs through the segment and goes on at index 6. */
  lemma SegmentRun(g: seq<uint32>)
    requires OpensWithSegment(g) && ParamsPresentFrom(g, 6)
    ensures ParamsPresent(g)
    ensures Run(g, 0, InitState) == Run(g, 6, LineStep(MoveStep(InitState, 0, 0), 2, 2))
  {
    SegmentParamsPresent(g);
    var moved := MoveStep(InitState, 0, 0);
    assert Run(g, 0, InitState) == Run(g, 3, moved) by {
      SegmentWords();
      SegmentRepeats(g);
      RunAt(g, 0, InitState);
    }
    assert Run(g, 3, moved) == Run(g, 6, LineStep(moved, 2, 2)) by {
      SegmentWords();
      SegmentRepeats(g);
      RunAt(g, 3, moved);
    }
  }

  /** The test program runs through the segment and goes on at index 6. */
  lemma SegmentVariantRun(g: seq<uint32>)
    requires OpensWithSegment(g) && ParamsPresentFrom(g, 6)
    ensures ParamsPresent(g)
    ensures VariantRun(g, 0, InitState) == VariantRun(g, 6, VariantLineStep(MoveStep(InitState, 0, 0), 2, 2))
  {
    SegmentParamsPresent(g);
    var moved := MoveStep(InitState, 0, 0);
    assert VariantRun(g, 0, InitState) == VariantRun(g, 3, moved) by {
      SegmentWords();
      SegmentRepeats(g);
      VariantRunAt(g, 0, InitState);
    }
    assert VariantRun(g, 3, moved) == VariantRun(g, 6, VariantLineStep(moved, 2, 2)) by {
      SegmentWords();
      SegmentRepeats(g);
      VariantRunAt(g, 3, moved);
    }
  }

  /** The states after the segment: the engine's box holds (2, 2), the test program's only (0, 0). */
  lemma SegmentStates()
    ensures LineStep(MoveStep(InitState, 0, 0), 2, 2) == DecodeState(Point(2, 2), Point(0, 0), [0, 0, 2, 2], 2, 2, 2, 2)
    ensures VariantLineStep(MoveStep(InitState, 0, 0), 2, 2) == DecodeState(Point(2, 2), Point(0, 0), [0, 0, 2, 2], 0, 0, 0, 0)
  {
  }

  /** The centres of the two boxes after the segment. */
  lemma SegmentCentres()
    ensures Centre(DecodeState(Point(2, 2), Point(0, 0), [0, 0, 2, 2], 2, 2, 2, 2)) == [1, 1]
    ensures VariantCentre(DecodeState(Point(2, 2), Point(0, 0), [0, 0, 2, 2], 0, 0, 0, 0)) == [0.0, 0.0]
  {
    assert TruncDiv(2, 2) == 1;
  }

  /**
   * MoveTo(0, 0), LineTo(+2, +2): both decoders emit the edge (0,0) -> (2,2),
   * but the test program's box only saw the cursor before the move, so its
   * centre is (0, 0) where the engine's is (1, 1).
   */
  lemma PreMoveBoxExample()
    ensures ParamsPresent([9, 0, 0, 10, 4, 4])
    ensures Run([9, 0, 0, 10, 4, 4], 0, InitState) == Some(DecodeState(Point(2, 2), Point(0, 0), [0, 0, 2, 2], 2, 2, 2, 2))
    ensures Centre(DecodeState(Point(2, 2), Point(0, 0), [0, 0, 2, 2], 2, 2, 2, 2)) == [1, 1]
    ensures VariantDecode([9, 0, 0, 10, 4, 4]) == BuildingFeature([0, 0, 2, 2], [0.0, 0.0])
  {
    var g: seq<uint32> := [9, 0, 0, 10, 4, 4];
    SegmentRun(g);
    SegmentVariantRun(g);
    SegmentStates();
    SegmentCentres();
  }

  /**
   * The same stream followed by a word that is no command: the engine
   * rejects the feature, while the test program keeps its centre and clears
   * its edges, and the feature is still valid.
   */
  lemma BadTrailingWordExample()
    ensures ParamsPresent([9, 0, 0, 10, 4, 4, 4])
    ensures Run([9, 0, 0, 10, 4, 4, 4], 0, InitState).None?
    ensures VariantDecode([9, 0, 0, 10, 4, 4, 4]) == BuildingFeature([], [0.0, 0.0])
  {
    var g: seq<uint32> := [9, 0, 0, 10, 4, 4, 4];
    SegmentWords();
    assert ParamsPresentFrom(g, 6);
    SegmentRun(g);
    SegmentVariantRun(g);
    SegmentStates();
  }

  /** On every stream the test program can read, the intended loop decodes as the written one. */
  lemma {:induction false} RunCheckedAgrees(geom: seq<uint32>, i: nat, st: DecodeState)
    requires ParamsPresentFrom(geom, i)
    ensures VariantRunChecked(geom, i, st) == VariantRun(geom, i, st)
    decreases |geom| - i
  {
    if i < |geom| && DecodeCommand(geom[i]).Some? {
      var c := DecodeCommand(geom[i]).value;
      var next := VariantRepeat(geom, i + 1, c.kind, c.count, st);
      RunCheckedAgrees(geom, next.1, next.0);
    }
  }

  /**
   * MoveTo with one parameter missing: the command at index 0 takes the
   * index to 3, past the size 2, so the loop `while (i != geometry_sz)` does
   * not stop there; the intended loop rejects the feature's edges.
   */
  lemma TruncatedGeometryExample()
    ensures DecodeCommand(9) == Some(Command(Move, 1)) && 1 + Consumed(Command(Move, 1)) == 3
    ensures !ParamsPresent([9, 0])
    ensures VariantRunChecked([9, 0], 0, InitState).edges == []
  {
    var g: seq<uint32> := [9, 0];
    assert DecodeCommand(g[0]) == Some(Command(Move, 1));
  }
}
