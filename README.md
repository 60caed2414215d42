# Machining-feature profile catalog and dataset retry loop, in Dafny

This project models the part of a synthetic CAD-dataset generator that decides
the 2-D outline of each machining feature before it is extruded into the
stock. Each feature class has two parts:

- a constant descriptor: `shifter_type`, `bound_type`, `depth_type` and `feat_type`;
- a profile rule `_add_sketch(bound, hetero)`.

The profile rule turns the corner points `bound` of a bounding region into
one of two things:

- the vertex list handed to `occ_utils.face_polygon`;
- the chain of segments and circular arcs handed to the wire and face
  builders.

It produces either the canonical profile or, when `hetero` is set, a
heterogeneous variant. The project also models the retry/acceptance loop of
`generate_shape` in `main.py`, and the label record that `save_label` writes.

How the model is put together:

- **Points** are triples of reals (`Geometry`).
- **Random draws** (`random.uniform`, `randint`, `choice`, `shuffle`,
  `sample`) become parameters. Each has a precondition giving the range the
  source draws from.
- **Kernel computations** are the fields of one `Kernel.Oracle` record:
  - vector length and unit direction (`np.linalg.norm`, `v / norm`);
  - points on a circle (`Geom_Circle.Value`);
  - `rotate_vector`;
  - whether `BRepBuilderAPI_MakeFace` succeeds.

  Lemmas that need Euclidean behaviour state it as a hypothesis
  (`EuclideanNorm`, `NormalizedUnits`, `RotationKeepsLength`,
  `CircleValueOnCircle`, `CircleValueOneTurn`).
- **Edges** are recorded by the arguments they are built from (`Wire.Edge`).

The central structure, proved feature by feature, is that every
heterogeneous profile is its canonical profile with exactly one edge split:

- polygon profiles use `Polygon.SplitEdge`, which inserts
  `scale * A + (1 - scale) * B` after `A`;
- wire profiles use `Wire.SplitChain`.

Each split has a proved inverse (`Polygon.RemoveAt` and `Wire.MergeChain`).
Polygon splits also keep the outline's vector area (`SplitEdgeKeepsArea`),
so they keep both the enclosed area and the winding direction.

Module layout:

- one module per source file under `Features/`;
- `Generation` for `main.py`;
- shared modules `Geometry`, `Polygon`, `Wire`, `Kernel`, `Region` (the
  width, height, directions and inscribed circle several rules derive from
  `bound`), `Descriptors` and `Wrappers`;
- `Catalog`, which collects the thirteen descriptors.

Notes on the source:

- Despite its name, `h_circular_end_blind_slot` rounds the slot's two inner
  corners with quarter circles of radius `rect_h`.
  `HCircularEndBlindSlot.EndCapsAreQuarterCircles` proves this for
  rectangular regions.
- In `triangular_passage` a coincidence of corners makes
  `unselected_items[0]` raise `IndexError`; the model returns `None` there.
  On a Euclidean kernel whose circle values do not repeat within a turn this
  cannot happen (`TriangularPassage.HeteroProfileExists`).

- In `triangular_passage`, `ang2` can never exceed `2 * pi`, so its
  wrap-around branch is dead code (`TriangularPassage.TriangleAngles`).
- The heterogeneous triangular passage keeps the canonical winding only when
  the second sampled corner follows the first. Otherwise it winds the other
  way (`TriangularPassage.WindingFollowsPick`).
- The triangular through slot and the two-sided through step always keep the
  canonical winding.

## Model

| member | source | states |
|---|---|---|
| Geometry.Min | Features/circular_through_slot.py:28 | `min` returns one of its arguments, and that argument is no larger than the other |
| Geometry.LerpAvoidsEndpoints | Features/rectangular_pocket.py:21 | for `0 < scale < 1` and distinct endpoints, the interpolated point is neither endpoint |
| Geometry.LerpIsOffset | Features/two_sides_through_step.py:22 | the interpolation `scale * a + (1 - scale) * b` is `b + scale * (a - b)`, the form `pt0 = bound[1] + dir_l * ratio` takes |
| Geometry.LerpSwap | Features/triangular_blind_step.py:18-21 | interpolating from the other end with `1 - scale` gives the same point |
| Geometry.Midpoint | Features/two_sides_through_step.py:21 | `(a + b) / 2` is as far from `a` as `b` is from it |
| Geometry.CentroidOfParallelogram | Features/six_sides_passage.py:31 | on a parallelogram region the corner average is the midpoint of both diagonals |
| Polygon.SplitEdge | Features/rectangular_pocket.py:20-31 | splitting edge `k` adds one vertex, at index `k + 1`, equal to `scale * s[k] + (1 - scale) * s[k + 1 mod n]`; deleting that vertex gives back `s` |
| Polygon.InsertAt | Features/rectangular_pocket.py:22 | inserting at `i` adds one element; it keeps the elements before `i` and shifts the others by one |
| Polygon.RemoveAt | Features/rectangular_pocket.py:34 | deleting index `i` keeps the elements before `i` and shifts the later ones down by one |
| Polygon.SplitEdgeAddsCorner | Features/rectangular_pocket.py:18-31 | the inserted vertex differs from both ends of a proper split edge |
| Polygon.SplitEdgeKeepsOtherEdges | Features/rectangular_through_slot.py:18-27 | every edge other than the split one is still an edge of the new polygon |
| Polygon.SplitEdgeKeepsArea | Features/triangular_through_slot.py:28-31 | splitting an edge leaves the shoelace vector area unchanged, so area and winding are kept |
| Polygon.CrossChainInsertInterior | Features/rectangular_pocket.py:22-28 | inserting a vertex inside a chain replaces one cross-product term by the two around the new vertex |
| Polygon.CrossChainAppend | Features/rectangular_pocket.py:31 | appending a vertex adds the cross-product term from the old last vertex to it |
| Wire.Split | Features/circular_through_slot.py:51-52 | an edge split at a point or a parameter becomes two edges of the same kind on the same carrier that join end to start, and joining them back gives the original edge |
| Wire.SplitChain | Features/h_circular_end_blind_slot.py:46-85 | splitting one edge of a chain gives one more edge |
| Wire.MergeChain | Features/h_circular_end_blind_slot.py:93-94 | merging two neighbouring edges gives one edge fewer |
| Wire.MergeUndoesSplit | Features/h_circular_end_blind_slot.py:41-94 | merging the two halves of a split edge gives back the original chain |
| Wire.SplitKeepsClosed | Features/h_circular_end_blind_slot.py:56-94 | splitting an edge of a closed chain leaves it closed |
| Wire.WireBuilder.constructor | Features/h_circular_end_blind_slot.py:96 | a new wire builder holds no edges |
| Wire.WireBuilder.Add | Features/h_circular_end_blind_slot.py:98-99 | `Add` appends the edge and changes nothing else |
| Wire.MakeWire | Features/h_circular_end_blind_slot.py:96-99 | the wire built by adding each edge in turn holds exactly those edges, in order |
| Kernel.UnitHasLengthOne | Features/circular_through_slot.py:25 | under a Euclidean norm, dividing a non-zero vector by its norm gives length one |
| Region.Incircle | Features/six_sides_passage.py:20-33 | the inscribed circle's radius is `min(width / 2, height / 2)`: no more than either half side, and equal to one of them |
| Region.IncircleRadiusPositive | Features/blind_hole.py:29 | with two proper sides and a Euclidean norm, the radius is positive |
| Region.SidesFromDirections | Features/six_sides_passage.py:20-26 | under Euclidean norms `dir_w`, `dir_h` have length one and `width * dir_w`, `height * dir_h` are the sides from `bound[1]` |
| Region.LengthTimesUnit | Features/circular_through_slot.py:23-25 | under Euclidean norms a non-zero vector is its norm times its unit vector |
| RectangularPocket.AddSketch | Features/rectangular_pocket.py:16-34 | the canonical profile is `bound[0..3]` in order; the heterogeneous one is that quad with edge `num` (any of 0..3) split at `scale` |
| RectangularPocket.HalfScaleSplitsAtMidpoint | Features/rectangular_pocket.py:20-22 | with `scale = 0.5` the extra vertex is the split edge's midpoint; for the square (2,2,0)..(8,2,0) and `num = 0` it is (2,5,0) |
| RectangularPocket.InsertedVertexIsNew | Features/rectangular_pocket.py:18-31 | when edge `num` has distinct ends, the extra vertex differs from both neighbours |
| RectangularPocket.QuadArea | Features/rectangular_pocket.py:33-34 | the shoelace vector of a four-vertex outline is the sum of its four edge cross products |
| RectangularPocket.WorkedRegionArea | Features/rectangular_pocket.py:33-34 | the region (2,2,0), (2,8,0), (8,8,0), (8,2,0) has shoelace vector (0, 0, -72): area 36, clockwise seen from +z |
| RectangularPocket.WorkedExampleArea | Features/rectangular_pocket.py:16-34 | on that region the canonical profile is exactly the four corners, and the canonical and every heterogeneous profile have area 36 with the same winding |
| RectangularThroughSlot.AddSketch | Features/rectangular_through_slot.py:15-30 | canonical `bound[:4]`; `num` 0, 1, 2 split edges b0–b1, b2–b3, b3–b0 |
| RectangularThroughSlot.OpenSideKept | Features/rectangular_through_slot.py:18-27 | edge b1–b2 is never split |
| RectangularBlindStep.AddSketch | Features/rectangular_blind_step.py:16-28 | canonical `bound[:4]`; `num = 0` splits b2–b3 (new vertex at index 3), `num = 1` splits b3–b0 (new vertex at index 4) |
| RectangularBlindStep.StockSidesKept | Features/rectangular_blind_step.py:19-25 | edges b0–b1 and b1–b2 are never split |
| RectangularThroughStep.AddSketch | Features/rectangular_through_step.py:15-22 | canonical `bound[:4]`; the heterogeneous profile splits the closing edge b3–b0, and its first four vertices are the canonical ones |
| RectangularThroughStep.OtherSidesKept | Features/rectangular_through_step.py:16-19 | edges b0–b1, b1–b2 and b2–b3 are never split |
| TriangularBlindStep.AddSketch | Features/triangular_blind_step.py:16-24 | canonical `[b0, b1, b2]` (`bound[3]` unused); the heterogeneous profile appends `scale * b0 + (1 - scale) * b2`, which splits the hypotenuse, and keeps the canonical prefix |
| TriangularBlindStep.HypotenuseSplit | Features/triangular_blind_step.py:18-21 | the two legs stay whole edges; the extra vertex is a new corner when the hypotenuse has length |
| TriangularThroughSlot.Triangle | Features/triangular_through_slot.py:22-34 | the canonical profile is a triangle whose edges include the open side `bound[1]`–`bound[2]` |
| TriangularThroughSlot.AddSketch | Features/triangular_through_slot.py:16-34 | canonical `[b1, b2, pnt3]` with `pnt3` the corner average; choosing `b1` splits the side from `pnt3` back to `b1`, choosing `b2` splits `b2`–`pnt3`; deleting `pnt4` gives the canonical triangle |
| TriangularThroughSlot.OpenSideAndAreaKept | Features/triangular_through_slot.py:24-31 | in both branches b1–b2 stays an edge and the vector area (hence winding) is the canonical triangle's |
| TriangularThroughSlot.ExtraVertexBetween | Features/triangular_through_slot.py:26-29 | `pnt4` differs from the chosen corner and from `pnt3` when those differ |
| TwoSidesThroughStep.Pentagon | Features/two_sides_through_step.py:17-25 | `pt0 = b1 + ratio (b0 - b1)`, `pt3 = b2 + ratio (b3 - b2)` with one shared `ratio`, `pt1 = b1`, `pt2 = b2`, `pt4` the midpoint of b0 and b3 |
| TwoSidesThroughStep.AddSketch | Features/two_sides_through_step.py:27-37 | canonical pentagon; choosing `pt0` splits `pt4`–`pt0`, choosing `pt3` splits `pt3`–`pt4`; deleting `pt5` gives the pentagon |
| TwoSidesThroughStep.FrameKept | Features/two_sides_through_step.py:28-34 | sides `pt0`–`pt1`, `pt1`–`pt2`, `pt2`–`pt3` stay whole edges and the pentagon's vector area is kept |
| SlantedThroughStep.Quad | Features/slanted_through_step.py:17-26 | with `mark = [1, 0]` only `pt0` moves, to `b0 - ratio (b0 - b1)`; with `[0, 1]` only `pt3` moves, to `b3 - ratio (b3 - b2)`; `pt1 = b1`, `pt2 = b2` |
| SlantedThroughStep.ExactlyOneCornerMoves | Features/slanted_through_step.py:20-26 | on proper sides exactly one of `pt0`, `pt3` differs from its corner |
| SlantedThroughStep.AddSketch | Features/slanted_through_step.py:28-35 | the heterogeneous profile appends `scale * pt0 + (1 - scale) * pt3`, which splits the closing side, and keeps the first four vertices |
| SixSidesPassage.HexagonAngles | Features/six_sides_passage.py:35-51 | the angles step by `pi / 3` from `ang1` in `[0, pi / 3]`; the last is at most `2 pi`, and any two are less than a full turn apart |
| SixSidesPassage.Hexagon | Features/six_sides_passage.py:33-51 | the six corners are `circ.Value` of the six angles on the inscribed circle; when `circ.Value` lies on its circle they are all `radius` from the centre, and when the radius is positive and `circ.Value` repeats no point within a turn they are pairwise distinct |
| SixSidesPassage.SplitSide | Features/six_sides_passage.py:53-73 | branch `num` splits side `num` of the hexagon |
| SixSidesPassage.AddSketch | Features/six_sides_passage.py:53-76 | canonical hexagon; the heterogeneous profile is the hexagon with any one of its six sides split |
| SixSidesPassage.HeteroHexagonGainsCorner | Features/six_sides_passage.py:53-73 | on a region with two proper sides, the heterogeneous hexagon's extra vertex differs from both ends of the side it splits |
| TriangularPassage.TriangleAngles | Features/triangular_passage.py:35-46 | after the wrap-arounds `ang2`, `ang3` lie in `(0, 2 pi]`, and `ang2 = ang1 + d2` (its wrap never applies) |
| TriangularPassage.CentralAngles | Features/triangular_passage.py:35-46 | the three central angles sum to `2 pi` and each lies in `[4 pi / 9, 8 pi / 9]` |
| TriangularPassage.Corners | Features/triangular_passage.py:33-46 | the three corners are `circ.Value` of the three angles on the inscribed circle; when `circ.Value` lies on its circle they are all `radius` from the centre, and when the radius is positive and `circ.Value` repeats no point within a turn they are pairwise distinct |
| TriangularPassage.Unselected | Features/triangular_passage.py:52 | the filter keeps exactly the items equal to no selected item |
| TriangularPassage.Third | Features/triangular_passage.py:51 | the corner `random.sample` left out differs from both picks |
| TriangularPassage.AddSketch | Features/triangular_passage.py:48-62 | canonical `[pt1, pt2, pt3]`; the heterogeneous result is absent exactly when the unpicked corner equals a picked one; otherwise it is `[s0, scale s0 + (1 - scale) s1, s1, u]` |
| TriangularPassage.PickedTriangleArea | Features/triangular_passage.py:50-59 | the picked-order triangle has the canonical vector area if the second pick follows the first, and the negated area otherwise |
| TriangularPassage.WindingFollowsPick | Features/triangular_passage.py:50-59 | with distinct corners the profile exists, is the picked-order triangle with its first side split, and winds as the pick order says |
| TriangularPassage.AnglesWithinTurn | Features/triangular_passage.py:35-46 | any two of the three angles are less than a full turn apart |
| TriangularPassage.HeteroProfileExists | Features/triangular_passage.py:48-59 | on a region with two proper sides and such a kernel, the lookup of the unpicked corner never raises: the heterogeneous profile always exists |
| BlindHole.AddSketch | Features/blind_hole.py:19-48 | both wires are closed and lie on the same inscribed circle; canonical: one edge over `[0, 2 pi]`; heterogeneous: that edge cut at `scale * pi` into two non-empty arcs |
| BlindHole.FullCircle | Features/blind_hole.py:42-44 | the canonical wire is a single edge over the full parameter turn, which closes on itself |
| BlindHole.HalvesMergeToCircle | Features/blind_hole.py:33-44 | merging the two arcs gives back the full circle |
| CircularThroughSlot.ChordEnds | Features/circular_through_slot.py:28-35 | the chord's midpoint is the slot's centre in both branches |
| CircularThroughSlot.Radius | Features/circular_through_slot.py:28 | the radius is no more than half the open side and no more than the height, and equals one of them |
| CircularThroughSlot.Center | Features/circular_through_slot.py:29 | the centre lies halfway along the open side `bound[1]`–`bound[2]` |
| CircularThroughSlot.CanonicalCircle | Features/circular_through_slot.py:56-59 | the canonical circle is centred at the chord's midpoint, with the slot's radius |
| CircularThroughSlot.HeteroCircle | Features/circular_through_slot.py:39-48 | the heterogeneous circle is centred at the chord's midpoint, with the slot's radius |
| CircularThroughSlot.DShape | Features/circular_through_slot.py:60-62 | the chord and the arc back form a closed two-edge wire |
| CircularThroughSlot.ChordEndsOnCircle | Features/circular_through_slot.py:23-35 | under Euclidean norms both chord ends are `radius` from the centre, in both branches |
| CircularThroughSlot.CirclesAgree | Features/circular_through_slot.py:39-59 | the heterogeneous circle has the canonical centre and radius, and its axis is the canonical one divided by `height` |
| CircularThroughSlot.ArcPointOnCircle | Features/circular_through_slot.py:43-45 | under Euclidean norms and a length-keeping rotation, `pnt3` lies on the slot's circle |
| CircularThroughSlot.Outline | Features/circular_through_slot.py:36-62 | both wires are closed; canonical: chord then arc back; heterogeneous: the same D shape with its arc split at `pnt3` |
| CircularThroughSlot.AddSketch | Features/circular_through_slot.py:64-69 | the result is `None` exactly when face construction fails; otherwise it is the closed outline |
| HCircularEndBlindSlot.SlotLayout | Features/h_circular_end_blind_slot.py:30-39 | `rect_h = min(height, width / 2 - 0.5)`, `pt1 = b1`, `pt2 = b2` |
| HCircularEndBlindSlot.Canonical | Features/h_circular_end_blind_slot.py:93-94 | the four-edge outline (side, arc round `pt2`, inner segment, arc round `pt1`) is a closed chain |
| HCircularEndBlindSlot.SegMaker | Features/h_circular_end_blind_slot.py:41-94 | closed in every branch; `num = 0` splits the `circ2` arc at `pt23`, `num = 1` the `circ1` arc at `pt41`, `num = 2` the inner segment at `pt34` |
| HCircularEndBlindSlot.AddSketch | Features/h_circular_end_blind_slot.py:96-103 | the wire is the edge list added in order; it is closed with 4 edges, or 5 when heterogeneous, and merging the split edge gives the canonical outline |
| HCircularEndBlindSlot.EndCapsAreQuarterCircles | Features/h_circular_end_blind_slot.py:31-39 | on a rectangular region `pt2`, `pt3` lie on `circ2` (`Circle2`, about `center2`) and `pt4`, `pt1` on `circ1` (`Circle1`, about `center1`), a quarter turn apart; both circles have radius `rect_h` |
| HCircularEndBlindSlot.Pt23InsideArc | Features/h_circular_end_blind_slot.py:47-49 | on a rectangular region `pt23` lies on `circ2`, strictly inside the quarter arc from `pt2` to `pt3` |
| HCircularEndBlindSlot.Pt41InsideArc | Features/h_circular_end_blind_slot.py:61-63 | on a rectangular region `pt41` lies on `circ1`, strictly inside the quarter arc from `pt4` to `pt1` |
| Catalog.DescriptorOf | Features/rectangular_pocket.py:9-14 | every class sets `shifter_type` equal to `bound_type`, in 1..4, and `depth_type` is `through` exactly for the three through slots and the two passages; the thirteen values (pocket 4/4/blind, through slot 1/1/through, blind step 2/2/blind, through step 3/3/blind, triangular blind step 2/2/blind, triangular through slot 1/1/through, `2sides_through_step` 3/3/blind, slanted through step 3/3/blind, `6sides_passage` 4/4/through, triangular passage 4/4/through, blind hole 4/4/blind, circular through slot 1/1/through, H slot 1/1/blind) are those of each `__init__` |
| Catalog.FeatureTypesDistinct | Features/h_circular_end_blind_slot.py:18 | no two classes share a `feat_type` |
| Catalog.RegionTypes | Features/slanted_through_step.py:12 | which classes use region type 1, 2, 3 and 4, both ways |
| Generation.VerdictOf | main.py:100-162 | a pass saves exactly when its attempt is acceptable (generation did not raise; the shape exists, is Solid, Compound or CompSolid, and has faces; each labelling call returns one entry per face; saving did not raise), and raises out of the function exactly when an unguarded labelling step raises before a check sends the loop round again |
| Generation.LabelFile | main.py:83-85 | the label data, read back the way `crosscheck.py` reads it (`label_data[0]`), gives the shape name with the three lists as written |
| Generation.GenerateShape | main.py:99-162 | at most three passes; stops at the first acceptable pass and saves exactly it, with a label file that reads back under the shape's name and passes the label-count checks for its faces; an exception in the labelling ends the function at once with nothing saved; ends with `num_try == 4` exactly when three passes were neither acceptable nor raising; records each pass's verdict |

## Left out

- The geometry kernel (`face_polygon`, `BRepBuilderAPI_MakeEdge`, `MakeWire`, `MakeFace`, `GC_MakeSegment`, `GC_MakeArcOfCircle`, `gp_Dir`, `as_occ`) is not computed. Polygon profiles are the vertex list given to `face_polygon`, and wires are their edge lists. Simple-polygon and planarity validity need the kernel and are not stated.
- Floating point is replaced by reals. `np.linalg.norm`, unit directions, `Geom_Circle.Value` and `rotate_vector` are oracle functions. A zero `width` or `height` (numpy's division by zero) is not modelled: the oracle then returns some value.
- Python's `random` module is not modelled: every draw is a parameter restricted to the range the source draws from.
- `feature_creation` (shape construction and the label functions), the `MachiningFeature` base class and `Utils` are not part of this model. Their results enter `Generation.GenerateShape` as each attempt's outcome, including whether a labelling call raised.
- `shape_with_fid_to_step`, `save_shape`, JSON writing, `print`, the `__main__` block (process pool, directories) and `directive` (dead code that uses an undefined `shape`) are I/O or unused. They are not modelled.
- `crosscheck.py` is modelled only as far as it reads a label file back and checks the label counts (lines 106-124). Loading STEP files, the attributed adjacency graphs and its other checks are not modelled.
- `split_files.py` splits files into subsets. It is not modelled.
- BlindHole.AddSketch: returns the face's wire; face construction and its possible kernel exceptions are not modelled.
- HCircularEndBlindSlot.AddSketch: returns the face's wire; face construction is not modelled, and a negative `rect_h` (regions narrower than 1) is passed on as the source does.
- RectangularPocket.AddSketch: returns the vertex list given to `face_polygon`. The same holds for the other polygon rules. `face_polygon`'s own failures are not modelled.
- TriangularPassage.AddSketch: the `IndexError` raised when the unpicked corner coincides with a picked one is modelled as `None`.
- Generation.GenerateShape: `save_shape` and `save_label` form one `try` block and are modelled as one flag. A STEP file written before a failing `save_label` is not represented.
- Generation.GenerateShape: an exception raised in the labelling (main.py:125-147) is modelled as the `raised` result that ends the function. Its further escape from `list(tqdm(pool.imap(...)))` in the `__main__` block, which catches only `KeyboardInterrupt`, is not modelled.
- Generation.GenerateShape: label entries are modelled as integers. Their element types come from `feature_creation`, which is not part of this model.
- CircularThroughSlot.ChordEndsOnCircle: holds under the `EuclideanNorm` and `NormalizedUnits` hypotheses, because norms are oracles. The same applies to `ArcPointOnCircle`, `Region.IncircleRadiusPositive`, `Region.SidesFromDirections` and `Kernel.UnitHasLengthOne`.
- SixSidesPassage.Hexagon: the corners lie on the circle only under the `CircleValueOnCircle` hypothesis, and are distinct only under `CircleValueOneTurn`, because `Geom_Circle.Value` is an oracle. The same applies to `TriangularPassage.Corners`.
- SixSidesPassage.HeteroHexagonGainsCorner: holds under the `CircleValueOneTurn` hypothesis, because `Geom_Circle.Value` is an oracle. The same applies to `TriangularPassage.HeteroProfileExists`.
- HCircularEndBlindSlot.EndCapsAreQuarterCircles: holds for rectangular regions, where `dir_w` and `dir_h` are orthonormal. The same applies to `Pt23InsideArc` and `Pt41InsideArc`, which also need a positive `rect_h`.
