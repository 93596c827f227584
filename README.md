# tob: building footprints, clustering and data preparation

This project models the core of *tob*, a backend that finds the buildings
around a point, merges the building-part footprints that Ordnance Survey
vector tiles carry into one footprint per building, snaps addresses onto
those footprints, and clusters buildings and planning applications. The
model covers these parts:

- **Tile decoding** (`TileDecoder`, `BuildingShapeHeader`). The Mapbox Vector Tile
  command/parameter stream of a feature (section 4.3 of the Mapbox Vector
  Tile Specification v2.1) becomes an edge list, an approximate
  bounding-box centre and the feature's `osid`. A tile becomes the list of
  the building parts that decoded.
- **Point-in-polygon classification** (`Enclosure`). Two vertical rays are
  cast from a point and count crossings above and below. A penalty map
  corrects for vertical edges that lie on the ray.
- **Fragment merging** (`ShapeMerge`). The building parts that share an `osid`
  merge into one shape. The merged shape keeps each edge whose midpoint lies
  inside none of the parts.
- **Orchestration** (`Orchestration`). This covers which tiles of the 512 x 512
  grid a set of points needs, how tiles are shifted into the centre tile's
  frame and grouped by `osid`, and how a point is snapped to the centre of
  the first shape that does not classify it OUTSIDE.
- **Text** (`ShapeText`). The human-readable edge list.
- **The older vector-tile test program** (`VectorTileTest`). It decodes its
  own way, with a pre-move bounding box and a float centre.
- **Utilities** (`Util`, `UtilHeader`). The dynamic-programming longest
  common substring, the `key=value` configuration table, and the JSON
  field helpers.
- **Buildings** (`Buildings`). The type of a building and building merging.
- **Clustering** (`Clustering`). `cluster_buildings` merges the buildings at
  the same location. It moves each group of planning applications that
  share an address into the first building at one of their locations.
  Every other application becomes a development.
- **Two data-preparation programs.** `FormatValuations` splits a `*`-separated
  valuation dump into seven files by record type, prefixing each non-entry
  line with the key of the last entry line. `Script` lists the distinct
  characters of a file that are neither alphanumeric nor a space.
- **C++ integer semantics** (`CppInt`). Truncating division, remainder,
  32-bit wrap-around, `std::to_string`, `std::stoi` and `tolower` are written
  out where the code depends on them.

Code that works by loops and in-place updates is modelled as methods with
loop invariants. Each method is proved equal to a specification function,
and the properties are proved about that function. Hash-map iteration orders
are parameters or `:|` choices, so every property holds for every order.

## Model

| member | source | states |
|---|---|---|
| TileDecoder.DecodeCommandCases | src/building_shape.cpp:253-271 | a command integer decodes exactly when its low three bits are 1, 2 or 7; the count is the rest shifted right by three, and encoding the decoded command gives the integer back |
| TileDecoder.DecodeCommandRoundTrip | src/building_shape.cpp:253-271 | every command that fits in 32 bits decodes back to itself |
| TileDecoder.DecodeCommandExamples | src/building_shape.cpp:253-271 | MoveTo with count 5 decodes; command ids 4 and 12 are rejected |
| BuildingShapeHeader.DecodeParam | include/building_shape.h:144-147 | the zig-zag decode of an unsigned parameter is always a 32-bit int |
| BuildingShapeHeader.EncodeDecodeParam | include/building_shape.h:144-147 | zig-zag decoding is a bijection: re-encoding the decoded value gives every parameter back |
| BuildingShapeHeader.DecodeParamRoundTrip | include/building_shape.h:144-147 | decoding the zig-zag encoding of every 32-bit int gives that int |
| BuildingShapeHeader.DecodeParamExamples | include/building_shape.h:144-147 | 0, 1, 2, 3 decode to 0, -1, 1, -2 |
| BuildingShapeHeader.FloorMod | include/building_shape.h:181 | floor_mod is the floored modulus: for a positive divisor it is Dafny's x % y, for a negative one its mirror image |
| BuildingShapeHeader.FloorModRange | include/building_shape.h:181 | for a positive divisor the result lies in [0, y) and agrees with x modulo y |
| BuildingShapeHeader.FloorModWrapsBack | include/building_shape.h:181 | floor_mod(-1, n) is n - 1, so neighbour lookups wrap around the ring |
| BuildingShapeHeader.EdgeKeysAreOrdered | include/building_shape.h:66-72 | the edge-key equality compares ordered pairs: an edge equals its reversal exactly when both ends coincide |
| TileDecoder.ScanOsid | src/building_shape.cpp:275-280 | the tag loop finds the osid of the feature |
| TileDecoder.FeatureOsidIsLastPair | src/building_shape.cpp:275-285 | the feature has an osid exactly when some tag pair has the key "osid", and the last such pair decides its value |
| TileDecoder.DecodeFeature | src/building_shape.cpp:273-337 | decode_feature returns true exactly when the decoding succeeds, fills the decoded shape, and leaves a cleared shape otherwise |
| TileDecoderProperties.DecodeFeatureOutcome | src/building_shape.cpp:273-337 | decoding fails exactly when no tag pair has the key osid or a command does not decode; on success the shape has whole edges, a two-entry centre and the osid of the last osid pair |
| TileDecoderProperties.RunFailsOnlyOnBadCommand | src/building_shape.cpp:295-301 | the command loop fails exactly when some command integer it reaches does not decode |
| TileDecoderProperties.RunKeepsEdgeGroups | src/building_shape.cpp:302-327 | every command appends whole edges of four integers |
| TileDecoderProperties.EmptyGeometryDecodes | src/building_shape.cpp:287-336 | a feature with an osid and no geometry decodes to no edges and the centre (-1, -1): the unset start (INT_MAX, INT_MAX) is folded into both the minimum and the maximum, and each axis's INT_MAX + INT_MAX wraps to -2 |
| TileDecoderProperties.RingDecodes | src/building_shape.cpp:295-336 | the MoveTo/LineTo/ClosePath encoding of every polygon ring decodes to the ring's edges and the truncated centre of its bounding box |
| TileDecoderProperties.RingIsClosed | src/building_shape.cpp:322-327 | in a decoded ring each edge ends where the next one starts, and the last edge returns to the first vertex |
| TileDecoder.FindLayer | src/building_shape.cpp:343-350 | the layer found has the name asked for, and none is found only when no layer has that name |
| TileDecoder.ParseTile | src/building_shape.cpp:339-361 | parse_tile yields, in feature order, the shapes of the features of bld_fts_buildingpart that decode, with no trailing blank shape; it yields none when the layer is absent |
| TileDecoderProperties.DecodedShapesMembers | src/building_shape.cpp:353-359 | a shape is in the parsed tile exactly when some feature of the layer decodes to it |
| TileDecoderProperties.ParsedShapesValid | src/building_shape.cpp:353-359 | every parsed shape is valid: it has an osid, whole edges and a two-entry centre |
| Enclosure.MidpointOfVerticalEdge | src/building_shape.cpp:387-397 | the midpoint of a vertical edge lies on the edge, between its ends |
| Enclosure.MidpointOfHorizontalEdge | src/building_shape.cpp:387-397 | the midpoint of a horizontal edge lies on the edge, between its ends |
| Enclosure.CrossingYAtEndpoints | src/building_shape.cpp:379-385 | the line through an edge passes through both of its ends |
| Enclosure.GetEnclosureType | src/building_shape.cpp:399-453 | get_enclosure_type returns the two-ray classification: EDGE at the first vertical edge through the point, otherwise the parity of the distinct crossings above and below less the penalties |
| EnclosureProperties.ClassifyCases | src/building_shape.cpp:444-452 | INSIDE exactly when both crossing counts are odd with equal C++ remainders, OUTSIDE exactly when both are even, EDGE exactly when the remainders differ |
| EnclosureProperties.ClassifyNegativeCount | src/building_shape.cpp:446-448 | the remainder of a negative count is negative, so -1 against 1 is EDGE and -1 against -3 is INSIDE |
| EnclosureProperties.PointOnVerticalEdge | src/building_shape.cpp:424-426 | a point on any vertical edge of the shape is EDGE |
| EnclosureProperties.ContactsOnTheirSide | src/building_shape.cpp:416-440 | every crossing recorded above the point is above it and every crossing below is below it |
| EnclosureProperties.PointBesideShapeIsOutside | src/building_shape.cpp:407-449 | a point that no edge's x-range reaches is OUTSIDE |
| EnclosureProperties.SquareCentreInside | src/building_shape.cpp:399-453 | the centre of a square is INSIDE |
| EnclosureProperties.SquareCornerOnEdge | src/building_shape.cpp:399-453 | a corner of a square is EDGE |
| EnclosureProperties.SquareTopMidpointOnEdge | src/building_shape.cpp:412-421 | the midpoint of a square's top edge is EDGE: that edge meets the ray at the point's own height and counts on neither side |
| EnclosureProperties.RaisedBottomMidpointOnEdge | src/building_shape.cpp:412-421 | the same point, the midpoint of the bottom edge of the square stacked on top, is EDGE there too |
| EnclosureProperties.SquareFarPointOutside | src/building_shape.cpp:399-453 | a point beyond a square's corner is OUTSIDE |
| Enclosure.PenaltyFor | src/building_shape.cpp:478-480 | a vertical edge's penalty is 2 or 1 |
| Enclosure.EdgeToPenaltyMap | src/building_shape.cpp:455-484 | edge_to_penalty_map builds the penalty map of the edge list |
| EnclosureProperties.PenaltyMapKeys | src/building_shape.cpp:455-484 | the map is empty below three edges; otherwise its keys are exactly the vertical edges |
| EnclosureProperties.PenaltyMapValue | src/building_shape.cpp:464-481 | each vertical edge maps to the penalty computed from its last occurrence's neighbours |
| EnclosureProperties.PenaltyNeighboursWrap | src/building_shape.cpp:469-474 | the first edge's previous neighbour is the last edge and the last edge's next neighbour is the first |
| EnclosureProperties.PenaltyMapSuffices | src/building_shape.cpp:432-440 | the map of a shape with three or more edges holds every penalty the classifier looks up, so `pen_mp.at` never throws |
| ShapeMerge.CombineBuildingShapes | src/building_shape.cpp:495-535 | combine_building_shapes builds the merged shape of the fragments |
| ShapeMergeProperties.CombinedShape | src/building_shape.cpp:495-535 | the merged shape has the first fragment's osid, whole edges and a two-entry centre; an edge is in it exactly when it is an edge of some fragment whose midpoint lies INSIDE none of the fragments |
| ShapeMergeProperties.KeptEdgesMembers | src/building_shape.cpp:513-521 | an edge is kept exactly when its midpoint is INSIDE no fragment |
| ShapeMergeProperties.BoxIsTight | src/building_shape.cpp:526-529 | each side of the kept edges' bounding box is reached by an endpoint of some kept edge |
| ShapeMergeProperties.NothingKeptCentre | src/building_shape.cpp:533-534 | when no edge is kept, the centre is (0, 0) |
| ShapeMergeProperties.EdgeListOfFlatten | src/building_shape.cpp:521-525 | flattening edges to integers and reading them back gives the same edges |
| ShapeMergeProperties.SharedVerticalEdgeKept | src/building_shape.cpp:424-426 | a vertical edge whose midpoint lies on an edge of every fragment is kept, because its midpoint is EDGE and never INSIDE |
| ShapeMergeProperties.VerticalSeamKept | src/building_shape.cpp:507-532 | when two fragments share a vertical edge, the merged shape as written keeps that seam and the intended merge drops it |
| ShapeMergeProperties.SeamKept | src/building_shape.cpp:507-532 | any edge two fragments share whose midpoint is INSIDE neither is kept as written and dropped by the intended merge |
| ShapeMergeProperties.HorizontalSeamKept | src/building_shape.cpp:507-532 | for two stacked squares the shared horizontal wall is kept as written and dropped by the intended merge |
| ShapeMergeProperties.OuterEdgesMembers | src/building_shape.cpp:507-532 | an edge is in the intended outline exactly when it is kept as written and is not shared by two fragments |
| ShapeMergeProperties.CombinedIntendedShape | src/building_shape.cpp:495-535 | the intended merge has the first fragment's osid and is a valid shape; its edges are exactly the outer edges; it agrees with the merge as written on every edge that is not a seam |
| Orchestration.TileRowColContains | src/building_shape.cpp:79-82 | the tile found for a point is the one whose 512-cell square contains it |
| Orchestration.TileRowColExample | src/building_shape.cpp:79-82 | a negative cell coordinate lands in the tile before, and 512 lands in the next tile |
| Orchestration.TilePositions | src/building_shape.cpp:609-617 | the tiles needed are the tiles of the cells with duplicates removed |
| OrchestrationProperties.DedupDistinct | src/building_shape.cpp:609-617 | no tile position is listed twice |
| OrchestrationProperties.DedupFirstOccurrenceOrder | src/building_shape.cpp:609-617 | the positions keep the order of their first occurrences |
| OrchestrationProperties.TilePositionsCover | src/building_shape.cpp:609-617 | a position is listed exactly when some cell lies in it |
| Orchestration.ShiftBuilding | src/building_shape.cpp:553-561 | a shape is copied with every x shifted by the column offset and every y by the row offset, the centre shifted likewise |
| OrchestrationProperties.ShiftEdgesRoundTrip | src/building_shape.cpp:558-561 | shifting back by the opposite offsets restores the edges |
| OrchestrationProperties.ShiftedEdgeAt | src/building_shape.cpp:558-561 | each edge of the shifted shape is the original edge moved by the offsets |
| Orchestration.ShiftAndGroup | src/building_shape.cpp:549-565 | the shifting loop yields every stored shape moved into the centre tile's frame, and the osid groups of their indices |
| OrchestrationProperties.GroupsPartition | src/building_shape.cpp:562-563 | the groups' keys are exactly the osids present; each group lists, in ascending order, exactly the indices with that osid |
| Orchestration.CombineGroups | src/building_shape.cpp:567-581 | one shape per group: the lone shape of a singleton group, the merged shape of a larger one |
| Orchestration.GetCombinedTile | src/building_shape.cpp:537-583 | get_combined_tile yields one shape per osid group, each the merge of that osid's shifted shapes |
| OrchestrationProperties.OneShapePerOsid | src/building_shape.cpp:537-583 | every shape of the combined tile has an osid, no two share one, and the osids are exactly those of the stored shapes |
| Orchestration.TranslatePointToBuildingCentre | src/building_shape.cpp:585-598 | translate_point_to_building_centre moves the point to the centre of the first shape that does not classify it OUTSIDE |
| OrchestrationProperties.TranslatedIsFirstMatch | src/building_shape.cpp:585-598 | a point that is OUTSIDE every shape stays put; otherwise it moves to the centre of the first shape that does not classify it OUTSIDE |
| OrchestrationProperties.TranslatedIsACentre | src/building_shape.cpp:585-598 | the translated point is the point itself or the centre of one of the shapes |
| Orchestration.TranslatePoints | src/building_shape.cpp:621-623 | every point of the array is translated in place |
| OrchestrationProperties.SquareTileSnapping | src/building_shape.cpp:585-598 | a square's corner snaps to its centre and a point beyond it stays |
| ShapeText.EdgesToString | src/building_shape.cpp:229-251 | the text is empty unless the centre has two entries, otherwise the joined edge text |
| ShapeText.EdgeTextRoundTrip | tiles/vector_tile_test.cpp:100-122 | reading the integers out of the text in order gives the edge list back |
| ShapeText.RectangleText | tiles/vector_tile_test.cpp:207-232 | the text of the test program's rectangle |
| VectorTileTest.GetLocalBuildingsLayer | tiles/vector_tile_test.cpp:45-55 | get_local_buildings_layer returns the first layer named Local_buildings and true, else a cleared layer and false |
| VectorTileTest.FindLayerIsFirst | tiles/vector_tile_test.cpp:45-55 | a layer is found exactly when one has the name, and the one found is the first |
| VectorTileTest.DecodeFeatureVariant | tiles/vector_tile_test.cpp:124-176 | the test program's decode_feature computes the variant decoding of the geometry |
| VectorTileTestProperties.VariantEdgesAgree | tiles/vector_tile_test.cpp:124-176 | the variant's edges are the engine's when the engine succeeds and empty when it fails |
| VectorTileTestProperties.VariantAlwaysValid | tiles/vector_tile_test.cpp:96-98 | every feature the variant decodes has a two-entry centre |
| VectorTileTestProperties.PreMoveBoxExample | tiles/vector_tile_test.cpp:146-174 | the variant's box takes the cursor before each LineTo moves it, so the segment (0,0)-(2,2) gets the centre (0, 0) where the engine gives (1, 1) |
| VectorTileTestProperties.BadTrailingWordExample | tiles/vector_tile_test.cpp:137-140 | a command integer that does not decode clears the edges, and the centre is still appended |
| VectorTileTestProperties.EmptyGeometryCentre | tiles/vector_tile_test.cpp:173-174 | an empty geometry gives the centre (-0.5, -0.5) |
| VectorTileTestProperties.TruncatedGeometryExample | tiles/vector_tile_test.cpp:135-145 | a MoveTo with only one of its two parameters sends the loop index past the size |
| VectorTileTestProperties.RunCheckedAgrees | tiles/vector_tile_test.cpp:135-172 | the bounds-checked loop agrees with the loop as written on every complete geometry |
| VectorTileTest.TestGetTile | tiles/vector_tile_test.cpp:178-205 | the kept features are the decodings of the Local_buildings layer's features that have two centre entries, in order, and none when the layer is absent |
| VectorTileTestProperties.FilterKeepsAll | tiles/vector_tile_test.cpp:193-199 | the filter keeps every feature, so each kept feature is the decoding of the feature at the same index |
| UtilHeader.Tabs | include/util.h:48 | the indentation has exactly n characters, all tabs |
| UtilHeaderProperties.SingleKeyIsField | include/util.h:27-46 | get_json_fields with one key is get_json_field |
| UtilHeaderProperties.FirstPresentKeyDecides | include/util.h:34-46 | the first key present decides: its value, or the default when it is null, whatever later keys hold |
| UtilHeaderProperties.NoKeyPresent | include/util.h:34-46 | the default when no key is present |
| UtilHeaderProperties.NullStopsTheScan | include/util.h:40-42 | a null under the first key gives the default even when a later key has a value |
| Util.LongestCommonSubstrAsWritten | src/util.cpp:69-96 | longest_common_substr computes the table as written, on every input where its row-0 loop stays in bounds |
| Util.LongestCommonSubstr | src/util.cpp:69-96 | the evidently intended table, with row 0 filled across b and the best run looked for in every cell, computes the corrected longest common substring |
| UtilProperties.LcsIsCommon | include/longest_common_substr.h:7-34 | the result, as written or corrected, occurs in both strings |
| UtilProperties.LcsIsLongest | src/util.cpp:69-96 | the corrected result is at least as long as every common substring |
| UtilProperties.ShortRowZeroExample | src/util.cpp:79-81 | the table as written gives "y" for "xy" and "zzxy", whose longest common substring is "xy" |
| UtilProperties.BorderIgnoredExample | src/util.cpp:83-92 | the table as written reports no run for "a" and "a"; the "" it yields rests on the model reading the never-assigned `lcs_beg` as 0 |
| UtilProperties.TieKeepsFirstExample | src/util.cpp:87-91 | among equally long runs, the one ending first in `a` wins |
| Util.Config.InitConfig | src/util.cpp:36-46 | init_config loads each line into the table |
| UtilProperties.ConfigLineSplits | src/util.cpp:40-44 | a line splits at its first '=' into a key without '=' and a value |
| UtilProperties.ConfigLineRoundTrip | src/util.cpp:40-44 | a key without '=' and any value are read back from key=value |
| UtilProperties.LoadLinesKeys | src/util.cpp:36-46 | a key is in the table exactly when it was there or some line has it |
| UtilProperties.LastLineWins | src/util.cpp:36-46 | the last line with a key sets its value |
| Util.Config.Lookup | src/util.cpp:48-53 | config loads the file only when the table is empty and yields the key's value, inserting "" for a missing key |
| UtilProperties.UnreadableConfigLine | src/util.cpp:41-43 | the line "port" has no '=' and falls outside what the code reads; skipping it keeps a=b |
| UtilProperties.LoadLinesSkippingAgrees | src/util.cpp:36-46 | the loader that skips lines without '=' agrees with init_config on every file of key=value lines |
| UtilProperties.SkippedLine | src/util.cpp:41-43 | a line without '=' leaves the table as the remaining lines make it |
| BuildingsProperties.TobToStringInjective | src/building.cpp:11-14 | the four type names differ from each other |
| BuildingsProperties.SubUnitLineEnds | src/building.cpp:19-33 | a subunit line starts with its indentation and ends with its use, Commercial or Residential |
| BuildingsProperties.SubUnitLineName | src/building.cpp:21-30 | after the indentation comes the sub-building name and ", " exactly when it is not empty, then the fields |
| Buildings.SetTob | src/building.cpp:60-70 | set_tob gives the building the type of its subunits and changes nothing else |
| BuildingsProperties.TobOfCommercial | src/building.cpp:60-70 | COMMERCIAL exactly when every subunit is commercial |
| BuildingsProperties.TobOfResidentialOrMixed | src/building.cpp:60-70 | RESIDENTIAL exactly when no subunit is commercial, MIXED exactly when both uses occur, never DEVELOPMENT |
| Buildings.CombineBuildings | src/building.cpp:129-141 | x takes over y's subunits and valuations after its own, keeps its address, location and applications, and gets a non-empty name |
| BuildingsProperties.CombinedType | src/building.cpp:131-135 | differing types or MIXED give MIXED; otherwise x keeps its type |
| BuildingsProperties.CombinedName | src/building.cpp:136-140 | the name is "Building Shell" or a non-empty substring of both names, and "Building Shell" when they share no character |
| BuildingsProperties.CombinedNameAsWritten | src/building.cpp:137 | "xy" merged with "zzxy" is named "y", and two buildings named "a" become "Building Shell" once the never-assigned `lcs_beg` is read as 0 |
| Buildings.MakeDevelopment | src/building.cpp:143-150 | a development is named by the application's address, sits at its location, holds just that application and has no subunits or valuations |
| Clustering.GroupBy | backend/src/server.cpp:62-65 | the groups' keys are exactly the keys present, and each group lists the items with its key in input order |
| Clustering.MergeGroup | backend/src/server.cpp:67-74 | the group's first building absorbs each later one in turn |
| ClusteringProperties.CombineAllMerges | backend/src/server.cpp:67-74 | the merged building holds every member's subunits and valuations in order, and keeps the first member's location and applications |
| Clustering.CombineGroups | backend/src/server.cpp:66-75 | one merged building per location, the merge of that location's group |
| Clustering.FindBuilding | backend/src/server.cpp:90-100 | the location found is that of the group's first application at a building's location, or none |
| Clustering.PlaceGroups | backend/src/server.cpp:86-116 | the placement loop moves matched groups in and settles the rest as developments, group by group |
| Clustering.ClusterBuildings | backend/src/server.cpp:56-128 | cluster_buildings returns the merged buildings in map order followed by the developments |
| ClusteringProperties.ResultSize | backend/src/server.cpp:118-127 | one building per distinct location plus one per development |
| ClusteringProperties.OneBuildingPerLocation | backend/src/server.cpp:118-122 | the i-th result is the merge of the buildings at the i-th location |
| ClusteringProperties.EveryApplicationPlacedOnce | backend/src/server.cpp:86-127 | the applications in the result, counted with multiplicity, are those the merged buildings already held, plus each matched application once, plus each unmatched application once, moved to its group's first location |
| ClusteringProperties.MatchedGroupMovesIn | backend/src/server.cpp:101-106 | every application of a matched address group ends up in the building at the group's first matching location |
| ClusteringProperties.DevelopmentsAreUnmatched | backend/src/server.cpp:107-126 | each development holds one application whose address group matched no building, placed at the group's first location |
| ClusteringProperties.DevelopmentCount | backend/src/server.cpp:107-116 | the developments number the applications less those moved into buildings |
| ClusteringProperties.MovedInMembers | backend/src/server.cpp:101-106 | an application is moved in exactly when its address group matched |
| FormatValuations.Format | db/format_valuations.cpp:10-61 | the program writes the records of the lines before the first throwing line to their files, and reports whether a line threw |
| FormatValuations.FormatLine | db/format_valuations.cpp:18-58 | one pass of the loop: it stops at a throwing line, otherwise it updates the key and appends the routed record |
| FormatValuations.PrefixInPlace | db/format_valuations.cpp:26-31 | the in-place shuffle turns the line into key + "*" + line |
| FormatValuationsProperties.KeyStartsEmpty | db/format_valuations.cpp:16 | before the first entry line the key is empty |
| FormatValuationsProperties.KeyPersists | db/format_valuations.cpp:21-24 | after an entry line its second field is the key until the next entry line |
| FormatValuationsProperties.PrefixHidesType | db/format_valuations.cpp:25-33 | a prefixed line's own first field is the key, yet routing uses the original first field |
| FormatValuationsProperties.FirstThrowIsFirstBadLine | db/format_valuations.cpp:33 | the run stops at the first line whose first field stoi rejects, and every line before it has a number |
| FormatValuationsProperties.EveryRoutedLineWrittenOnce | db/format_valuations.cpp:33-58 | the seven outputs together hold exactly one line per routed record |
| FormatValuationsProperties.EntryKeyExample | db/format_valuations.cpp:21-24 | "01*K1*x" sets the key to K1 |
| FormatValuationsProperties.ForeignKeyIsSecondField | db/format_valuations.cpp:19-23 | the key read is empty when there is no '*', and otherwise is the text after the first '*' up to the next one |
| FormatValuationsProperties.BareEntryLine | db/format_valuations.cpp:22 | for the line "01" the second search starts past the end |
| CppInt.StoI | db/format_valuations.cpp:33 | a value is read only when it fits in 32 bits |
| CppInt.StoIOfIntToString | db/format_valuations.cpp:33 | stoi reads back every 32-bit int's decimal text |
| Script.Survey | db/script.cpp:17-28 | the program prints each distinct lower-cased character that is neither alphanumeric nor a space once, each on its own line, then a newline |
| ScriptProperties.PrintedExactly | db/script.cpp:21-26 | a character is printed exactly when it is the lower case of some input character and is neither alphanumeric nor a space |
| ScriptProperties.LinesLayout | db/script.cpp:24-27 | the output has two characters per printed character, the character then a newline |
| ScriptProperties.CaseFoldedExample | db/script.cpp:22 | "A-a-" yields the set {a, -} and prints only "-" |
| CppInt.Wrap32 | src/building_shape.cpp:334-335 | the wrapped sum is a 32-bit int congruent to the exact one, and equals it when that fits |
| CppInt.TruncDiv | src/building_shape.cpp:334-335 | C++ integer division truncates toward zero |
| CppInt.IntToStringRoundTrip | src/building_shape.cpp:229-251 | the decimal text of every int reads back to it |
| CppInt.ToLower | db/script.cpp:22 | tolower maps upper-case ASCII letters to lower case and leaves every other character alone |

## Left out

- TileDecoder.MoveStep, TileDecoder.LineStep: the cursor is an unbounded int. In the C++ code `cursor.x +=` is signed 32-bit arithmetic, and its overflow is undefined, so the model does not wrap it. Only the bounding-box centre sum, which the INT_MAX/INT_MIN sentinels make overflow on reachable input, is wrapped (`Wrap32`).
- VectorTileTest.VariantRun: it uses unbounded cursor arithmetic for the same reason as `MoveStep`.
- Orchestration.ShiftEdges, Orchestration.Intermediate: the shift by 512 times the tile offset is unbounded; the C++ code's int addition could overflow on coordinates near 2^31.
- TileDecoder.ParamsPresent: a geometry whose last command lacks some of its parameters makes decode_feature read past the end of the stream, which is undefined. `DecodeFeature`, `ParseTile`, `DecodeFeatureVariant` and `TestGetTile` require complete geometries.
- TileDecoder.TagsInRange: a tag index outside the layer's keys or values is an out-of-range protobuf read. `DecodeFeature` and `ParseTile` require the indices to be in range.
- FormatValuations.ReadableLine: the line that is exactly "01" makes the second `find` start past the end, which is undefined. `Format` requires every line up to and including the first one whose type makes `stoi` throw to be readable; later lines are never read. The Findings table records this.
- Util.WellFormedLines: a configuration line with no '=' makes init_config build the value from an iterator one past the end of the line. `Config.InitConfig` and `Config.Lookup` require every line to have one; the Findings table records this.
- Util.LongestCommonSubstrAsWritten: `lcs_beg` is declared without a value and is only assigned when some cell with i, j >= 1 beats the best run, so on inputs such as "a" and "a" or "x" and "y" the returned string is built from an indeterminate value, which is undefined behaviour. The model reads it as 0, which gives "" because the length is then 0; `Buildings.CombineBuildings`'s "Building Shell" fallback rests on that reading.
- Util.LcsInBounds: the table as written writes row 0 beyond its width when `a` is longer than a non-empty `b`. `LongestCommonSubstrAsWritten`, `CombineBuildings` and, through `Clustering.NamesMerge`, `ClusterBuildings` require inputs where it stays in bounds.
- Enclosure.CrossingY, Enclosure.Midpoint: the float `gradient` and the float products built on it are computed as exact rationals and then truncated toward zero. This is an idealisation: single-precision rounding could differ by one for large coordinates.
- BuildingShapeHeader.FloorMod: `x - floor(x / (y * 1.0f)) * y` is modelled as exact floor division; the float quotient loses precision for |x| above 2^24.
- Orchestration.TileRowCol: `floorf` of the float quotient is modelled as exact floor division, with the same idealisation.
- VectorTileTest.VariantCentre: the test program's centre is a real. The protobuf field type of `approx_centre` is not part of this model, so the C++ float rounding is not modelled.
- value_to_string is not part of this model: `TileDecoder.Layer` holds each tag value already rendered as its text.
- Orchestration.GetCombinedTile: the tile store is the map from grid position to stored tile after every missing tile was fetched. fetch_missing_tiles, curl, the SQLite database and parse errors of the protobuf bytes are left out.
- Clustering.ClusterBuildings: the unordered maps' iteration orders are parameters (`headOrder`, `addrOrder`), so the result order holds for any order. translate_locations (lines 61 and 78) calls the float coordinate converter and the network, and is left out. Buildings and applications are moved on values rather than through C++ references to them.
- Orchestration.ShiftAndGroup: the `osid` map's iteration order is a `:|` choice in `CombineGroups`, so every property holds for every order.
- Script.Survey: the input is a sequence of `char`, not raw bytes, and the set's iteration order is left open. `tolower` on a negative `char` is undefined in C++, and the model's `ToLower` folds only ASCII letters.
- UtilHeader.Tabs: the level is a `nat`. The C++ code takes an `int`, and a negative level makes the string constructor throw.
- Buildings.SubUnitToString: its level is a `nat` for the same reason.
- FormatValuations.Format: when stoi throws, the program terminates, and the ofstream buffers need not be flushed. `outs` is what the program has written before that line; the model does not say how much of it reaches the files.
- FormatValuations.Format: the seven output files and the input file are sequences of lines; file I/O is left out.
- VectorTileTest.TestGetTile: reading the tile file, the protobuf parse and printing are left out; `geomtype_to_string` and `test_edges_to_string` only print.
- Building::to_string, Valuation and fetch_buildings read or print JSON and network data, and are not part of this model.
- CoordConverter's float conversions between British National Grid and cell space, global_to_nat_grid and the visualiser are not part of this model.
- The debug output of the engine (debug_print_tags, debug_save_single_shape, debug_save_combined_shape) is left out.

## Findings

| source | as written | input that shows it | evidently intended | confidence | as-written member | corrected member |
|---|---|---|---|---|---|---|
| src/util.cpp:79-81 | row 0 of the table is initialised for `a.size()` columns instead of `b.size()` | a = "xy", b = "zzxy" gives "y" | the longest common substring, "xy" | high, not executed | UtilProperties.ShortRowZeroExample | UtilProperties.LcsIsLongest |
| src/util.cpp:83-92 | the best run is only looked for at i, j >= 1, so a run ending in row 0 or column 0 is never reported | a = "a", b = "a" finds no run, and the result is then built from the uninitialised `lcs_beg` (the model reads it as 0 and gives "") | "a" | high, not executed | UtilProperties.BorderIgnoredExample | UtilProperties.LcsIsLongest |
| src/building_shape.cpp:424-426 | the midpoint of a vertical edge shared by two fragments is EDGE in both, never INSIDE, so the shared wall is kept | two unit squares side by side sharing the wall x = 2 | the outline of the union, without the shared wall | medium, not executed | ShapeMergeProperties.VerticalSeamKept | ShapeMergeProperties.CombinedIntendedShape |
| src/building_shape.cpp:412-421 | a horizontal edge shared by two stacked fragments meets the ray at its own midpoint's height, so it counts on neither side and the midpoint is EDGE in both; the shared wall is kept as well | the squares [0,2]x[0,2] and [0,2]x[2,4] sharing the wall y = 2 | the outline of the union, without the shared wall | medium, not executed | ShapeMergeProperties.HorizontalSeamKept | ShapeMergeProperties.CombinedIntendedShape |
| tiles/vector_tile_test.cpp:135 | `while (i != geometry_sz)` tests for inequality, and the parameters advance i by two, so a truncated geometry steps past the size and the loop reads beyond the stream | geometry [9, 0] (MoveTo 1 with one parameter) leaves i = 3 | stop at the end of the stream and reject the feature | medium, not executed | VectorTileTestProperties.TruncatedGeometryExample | VectorTileTestProperties.RunCheckedAgrees |
| db/format_valuations.cpp:22 | the second `find` starts at `lim1 + 1` even when `lim1` is already the end | the line "01" | an empty key | medium, not executed | FormatValuationsProperties.BareEntryLine | FormatValuationsProperties.ForeignKeyIsSecondField |
| src/util.cpp:41-43 | on a line without '=', `find` returns the end, and the value is built from one past the end | a configuration file with the line "port" before "a=b" | skip the line | medium, not executed | UtilProperties.UnreadableConfigLine | UtilProperties.LoadLinesSkippingAgrees |
