# CSG authoring engine and hull stitching, in Dafny

This project models three pure parts of a split-keyboard case generator that
builds solids by composing primitives and emits a program for an external CSG
renderer:

- **Vector algebra** (`src/math.ts`): the ring operations of `V3` and `V2` over
  exact reals (`vectors.dfy`, modules `V3` and `V2`).
- **Shape model and primitive factory** (`src/csg/primitives.ts`): an immutable
  tagged expression tree with a 2D/3D tag and a typing discipline
  (`shapes.dfy`, module `Shapes`); the leaf constructors, the bounding sizes
  recorded by `sphere`, `cube` and `cylinder`, `align`, sector clipping of
  cylinders, and corner-hull rounding of boxes (`primitives.dfy`, module
  `Primitives`).
- **Hull stitching** (`tenome/Tenome.ts`): `triangleHulls`, `buildWall`, the
  corner posts of a key mount and the clamped per-column tables
  (`tenome.dfy`, module `Tenome`). `wrappers.dfy` holds `Option`/`Result`.

A shape is `Leaf(kind, args)` or an operator node (`Translate`, `Rotate`,
`Hull(base, rest)`, `Union`, `Intersection`, `Difference`, `Projection`,
`LinearExtrude(height, center, child)`). `WellFormed` states the typing the
engine gets from its `Shape2`/`Shape3` classes: n-ary operators never mix
dimensions, projection flattens a solid, extrusion lifts a profile. An
`Alignable` is a shape with its bounding size.

Parameters stand in for code outside the model:

- the argument serializer is a parameter `ser: Args -> string` of `LeafText`;
- `Math.cos`/`Math.sin` are a parameter `unit: real -> Vec2` of `Cylinder`,
  the unit vector at an angle given in degrees;
- the grouping helper `partition(xs, 3, 1)` is assumed to yield only full
  windows of three consecutive elements, stepping by one (`Tenome.Windows3`).

Behaviour of the code worth knowing:

- `buildWall` takes exactly two solids and has no failure path.
- The clipping fan's points lie at distance `width` (the cylinder's diameter)
  from the axis, not at its radius.
- `triangleHulls` with fewer than three present anchors fails by calling
  `union` on an undefined first hull. The model returns
  `Failure(InsufficientAnchors)`.
- An absent or zero sector skips clipping, as does any multiple of 360.
- A clipped cylinder keeps only its upper half. The cylinder statement is
  centred (z from -h/2 to h/2), but the clipping wedge is extruded without
  `center`, so it spans z from 0 to h+1 and the intersection spans z from 0
  to h/2. The recorded size is still width x width x h.
- Corner radii are floored at 0.001 and never clamped against the box.
  `Primitives.CornerWithinBox` states when a corner stays inside it: a corner
  always touches the face it belongs to, and stays inside the box exactly
  when its radius is at most half the box's extent on that axis.

## Model

| member | source | states |
|---|---|---|
| V3.Add | src/math.ts:8 | subtracting either operand from the sum gives back the other |
| V3.Minus | src/math.ts:9 | the difference is the zero vector exactly when the operands are equal |
| V3.Times | src/math.ts:10 | multiplying by the all-ones vector is the identity; a zero operand gives zero |
| V3.Divide | src/math.ts:11 | for non-zero divisor components, multiplying the quotient by the divisor restores the dividend |
| V3.Dot | src/math.ts:12 | a vector's dot product with itself is never negative; a zero operand gives 0 |
| V3.Scale | src/math.ts:13 | scaling by 1 is the identity and scaling by 0 gives the zero vector |
| V3.Cross | src/math.ts:16-17 | the cross product is orthogonal to both operands |
| V3.AddCommutative | src/math.ts:8 | addition is commutative |
| V3.TimesCommutative | src/math.ts:10 | componentwise multiplication is commutative |
| V3.DotCommutative | src/math.ts:12 | the dot product is commutative |
| V3.ScaleCompose | src/math.ts:13 | scaling by b then by a is scaling by a*b |
| V3.CrossAntiSymmetric | src/math.ts:16-17 | swapping the operands negates the cross product; a vector crossed with itself is zero |
| V2.Add | src/math.ts:54 | subtracting either operand from the sum gives back the other |
| V2.Minus | src/math.ts:55 | the difference is zero exactly when the operands are equal |
| V2.Times | src/math.ts:56 | multiplying by the all-ones vector is the identity; a zero operand gives zero |
| V2.Divide | src/math.ts:57 | for non-zero divisor components, multiplying the quotient by the divisor restores the dividend |
| V2.Dot | src/math.ts:58 | a vector's dot product with itself is never negative; a zero operand gives 0 |
| V2.Scale | src/math.ts:59 | scaling by 1 is the identity and scaling by 0 gives zero |
| V2.Cross | src/math.ts:62 | the scalar cross product of a vector with itself, or with zero, is 0 |
| V2.AddCommutative | src/math.ts:54 | addition is commutative |
| V2.TimesCommutative | src/math.ts:56 | componentwise multiplication is commutative |
| V2.DotCommutative | src/math.ts:58 | the dot product is commutative |
| V2.ScaleCompose | src/math.ts:59 | scaling by b then by a is scaling by a*b |
| V2.CrossAntiSymmetric | src/math.ts:62 | swapping the operands negates the scalar cross product |
| Shapes.LeafText | src/csg/primitives.ts:58-140 | every leaf renders as one statement: a fixed per-kind prefix, the serialized record exactly once, and a fixed suffix; the statement is `name(...);`; cube and square start `cube(size=` / `square(size=` and end in `, center=true);`; a cylinder starts `cylinder(center=true, ` |
| Shapes.LeafTextDeterminesArgs | src/csg/primitives.ts:58-140 | two records of one leaf kind render alike exactly when the serializer renders them alike: the statement text is the argument text in a fixed frame |
| Primitives.Align | src/csg/primitives.ts:14-17 | align is one translation of the unchanged shape, by +size/2, -size/2 or 0 per axis as the direction is positive, negative or zero; the result is a plain solid |
| Primitives.FaceOffset | src/csg/primitives.ts:15 | `sign(d) * extent / 2` is +extent/2 for a positive direction, -extent/2 for a negative one and 0 for none |
| Primitives.AlignDependsOnlyOnSigns | src/csg/primitives.ts:15 | two directions with the same component signs align identically |
| Primitives.AlignOpposite | src/csg/primitives.ts:15 | aligning to the opposite direction translates by the opposite offset |
| Primitives.AlignCubeExample | src/csg/primitives.ts:14-17 | `cube([10,10,10]).align([1,0,0])` is the cube statement translated by [5,0,0] |
| Primitives.Circle | src/csg/primitives.ts:58-59 | a circle is a well-formed profile whose record holds exactly the given radius-or-diameter and resolution |
| Primitives.RegularPolygon | src/csg/primitives.ts:61-62 | a regular polygon is a circle profile carrying the given radius-or-diameter and, always, the given `$fn` |
| Primitives.Square | src/csg/primitives.ts:64 | a square is a well-formed profile whose record is its size |
| Primitives.Polygon | src/csg/primitives.ts:71-72 | a polygon is a well-formed profile carrying its points and convexity |
| Primitives.Text | src/csg/primitives.ts:86 | text is a `text` leaf carrying its string, built as a 3D shape |
| Primitives.Ployhedron | src/csg/primitives.ts:140 | the polyhedron leaf is a solid named `ployhedron` carrying its vertices, faces and convexity |
| Primitives.Sphere | src/csg/primitives.ts:89-92 | a sphere's size has three equal sides: `d` when a diameter is given, `2r` otherwise |
| Primitives.SphereSizeIndependentOfForm | src/csg/primitives.ts:90 | radius r and diameter 2r record the same size |
| Primitives.Cube | src/csg/primitives.ts:94 | a cube is a solid cube statement that records exactly its size |
| Primitives.Width | src/csg/primitives.ts:102-111 | a cylinder's width is the larger of its two end diameters, for all four property forms |
| Primitives.Divisions | src/csg/primitives.ts:116-117 | the division count lies in [1,4] and is the least n with angle < 90n |
| Primitives.SubAngle | src/csg/primitives.ts:117-118 | each fan segment spans more than 0 and less than 90 degrees; all segments together span the sector angle |
| Primitives.FanPoints | src/csg/primitives.ts:119-124 | the fan polygon is the origin plus divisions+1 points `width · unit(angle)`, from angle 0 to the sector angle in equal steps |
| Primitives.FanPointAtWidth | src/csg/primitives.ts:121-122 | when the trigonometry gives a vector of length 1, a fan point lies at distance \|width\| from the axis |
| Primitives.Wedge | src/csg/primitives.ts:124-125 | the clipping wedge is a solid: the fan polygon extruded to height h+1, with no `center` given (so the extrusion starts at z = 0) |
| Primitives.ClippedCylinder | src/csg/primitives.ts:126 | a clipped cylinder is a solid intersection with the cylinder statement as base and the wedge as the only other operand |
| Primitives.Cylinder | src/csg/primitives.ts:101-131 | size is width x width x h whether clipped or not; an unclipped cylinder is exactly the sector-free cylinder statement; a clipped one is that statement intersected with the wedge extruded to h+1 with no `center` |
| Primitives.FullTurnsAreNotClipped | src/csg/primitives.ts:115 | a sector that is a multiple of 360 builds exactly the unclipped cylinder |
| Primitives.SectorPeriodic | src/csg/primitives.ts:115-116 | adding 360 to the sector builds the same cylinder |
| Primitives.SectorNotSerialized | src/csg/primitives.ts:112-113 | the cylinder statement's text is the same whatever the sector |
| Primitives.DivisionExamples | src/csg/primitives.ts:117 | 270 gives 4 divisions, 30 gives 1, 90 gives 2 |
| Primitives.CornerRadius | src/csg/primitives.ts:22-25 | corner i's radius is `radii[i mod n]` floored at 0.001 and never below it |
| Primitives.RadiiCycle | src/csg/primitives.ts:25 | corner radii repeat with the period of the radius list |
| Primitives.CornerCentre | src/csg/primitives.ts:23-27 | on each rounded axis a corner centre is exactly r inside the face its bit selects; planar corners lie at z = 0 |
| Primitives.CornerBitsDistinct | src/csg/primitives.ts:24-27 | two different corner indices below 2^dim differ in a bit below dim, so they select different faces |
| Primitives.CornerIndex | src/csg/primitives.ts:24-27 | every pattern of faces is the bit pattern of some corner index below 2^dim |
| Primitives.CornerWithinBox | src/csg/primitives.ts:26-27 | a corner primitive touches its face; it stays inside the box exactly when r is at most half the extent |
| Primitives.CornerCentresDistinct | src/csg/primitives.ts:24-29 | with radii below half the box on each rounded axis, distinct corners have distinct centres |
| Primitives.EveryPatternIsACorner | src/csg/primitives.ts:26-27 | the corner with a given face pattern has its centre inset toward exactly those faces |
| Primitives.CornerSolid | src/csg/primitives.ts:37-52 | the corner primitive (cylinder of the box's height, or sphere) is a solid |
| Primitives.Corner | src/csg/primitives.ts:24-30 | each corner is a well-formed solid |
| Primitives.RoundCorners | src/csg/primitives.ts:21-33 | rounding is one solid hull over 2^dim corners, corner 0 as base and the others in index order, keeping the box size |
| Primitives.Round2D | src/csg/primitives.ts:35-49 | about z: a hull of 4 corner cylinders as tall as the box; about y or x: the permuted box rounded about z and rotated by [-90,0,0] or [0,90,0]; the original size is kept |
| Primitives.RoundAboutAxisHeight | src/csg/primitives.ts:38-47 | rounding about y or x uses corner cylinders as tall as the box along that axis |
| Primitives.CornerInsetByOwnRadius | src/csg/primitives.ts:24-31 | every built corner k is the primitive of radius `CornerRadius(radii, k)`, centred exactly that radius inside the faces its bits select |
| Primitives.Round3DCornerSpheres | src/csg/primitives.ts:51-53 | corner k of a full rounding is a sphere of radius max(radii[k mod n], 0.001) inset by exactly that radius from its three faces |
| Primitives.Round3D | src/csg/primitives.ts:51-53 | a hull of 8 corner spheres, each of radius at least 0.001, keeping the box size |
| Tenome.ClampColumn | tenome/Tenome.ts:47 | the clamped index is the column when in range, 0 below it, the last index above it |
| Tenome.ColumnOffsets | tenome/Tenome.ts:38-48 | columns 0..4 get their own table entry, columns below 0 the first entry, columns from 5 up the last |
| Tenome.ColumnSplay | tenome/Tenome.ts:50-59 | columns 0..4 get their own negated table entry, columns below 0 the first, columns from 5 up the last; the splay lies between -8 and 1 |
| Tenome.ColumnsOutsideReuseEdges | tenome/Tenome.ts:38-59 | columns below 0 reuse column 0's entries, columns from 4 up reuse column 4's |
| Tenome.SplayNonIncreasing | tenome/Tenome.ts:50-59 | the splay never increases from the inner column outwards |
| Tenome.WebPost | tenome/Tenome.ts:322-336 | a post is one translation of the shape, inset by the offset from the left/right and top/bottom mount edges, at the web height plus zOffset |
| Tenome.GetPosts | tenome/Tenome.ts:338-348 | the four posts translate the same shape; the top-right one sits `offset` in from the right and top mount edges at the web height (z offset 0); right and left posts mirror across x = 0, top and bottom ones across y = 0 |
| Tenome.BuildWall | tenome/Tenome.ts:314-320 | a wall is one solid hull whose base is the projected edge extruded 1 unit from the floor and whose only other operand is the original edge hull |
| Tenome.Present | tenome/Tenome.ts:364 | an anchor is kept exactly when it is given non-null |
| Tenome.PresentMultiplicity | tenome/Tenome.ts:364 | each anchor is kept exactly as many times as it is given non-null |
| Tenome.PresentKeepsOrder | tenome/Tenome.ts:364 | the anchors kept from any prefix of the arguments come first, in the same order |
| Tenome.FilterPresent | tenome/Tenome.ts:364 | the engine's filter loop keeps exactly the non-null anchors, in order |
| Tenome.PresentConcat | tenome/Tenome.ts:364 | filtering a concatenation is the concatenation of the filtered parts |
| Tenome.Windows3 | tenome/Tenome.ts:365 | n >= 3 anchors give n-2 windows; window i is anchors i, i+1, i+2 |
| Tenome.WindowHulls | tenome/Tenome.ts:366-368 | window k's hull has anchor k as base and anchors k+1, k+2 as the rest |
| Tenome.UnionAll | tenome/Tenome.ts:370-371 | the window hulls are unioned with the first as base and the others in order |
| Tenome.TriangleHulls | tenome/Tenome.ts:363-372 | succeeds exactly when at least 3 anchors are present; the result is a solid union of the n-2 window hulls in order |
| Tenome.NullsIgnored | tenome/Tenome.ts:364 | inserting a null anywhere in the anchor list does not change the result |
| Tenome.NullExample | tenome/Tenome.ts:364 | `[A,null,B,C,D]` gives the same result as `[A,B,C,D]` |
| Tenome.ConsecutiveAnchorsShareWindow | tenome/Tenome.ts:365 | every two consecutive anchors lie in a common window |
| Tenome.WindowsExample | tenome/Tenome.ts:365 | five anchors A..E give windows ABC, BCD, CDE |
| Tenome.StitchAnchors | tenome/Tenome.ts:363-372 | the engine's loops (filter, hull each window, union) build exactly the result `TriangleHulls` specifies |

## Left out

- Rotations: `V3.rotateX/Y/Z` and `deg2rad` need trigonometry and a foreign matrix library. The `rotateX` matrix is not a standard rotation; it is not modelled.
- `length` and `normalize` need square roots and may divide by a zero length.
- Floating point: all arithmetic is over exact reals, with no rounding, infinities or NaN.
- V3.Divide: requires non-zero divisor components, where JavaScript would produce infinities or NaN.
- V2.Divide: requires non-zero divisor components, for the same reason.
- The serializer (`translation-util`) is not part of this model. `LeafText` takes it as a parameter, so exact argument text such as `r=5` is not stated.
- The text of operator statements and whole-shape emission are not modelled. The statement classes that render them (`base2`, `base3`) are not part of this model.
- The operations `scale`, `mirror`, `offset`, `color` and `debug` are not tree nodes. No modelled function builds them.
- TypeMismatch is a precondition (`IsSolid`) rather than an error value, because the engine enforces it by static types.
- `importModel`/`importShape` reference external STL/DXF files.
- Text: only the plain-string form of the properties is modelled.
- Only the `$fn` resolution hint is modelled among the optional resolution fields.
- Primitives.Cylinder: the sector is a natural number. Negative or fractional sectors are not modelled; in the engine a negative sector gives a non-positive division count.
- Primitives.Cylinder: sines and cosines come from the `unit` parameter, which takes degrees; the conversion to radians is folded into it.
- Primitives.RoundCorners: requires a non-empty radius list, where the engine would compute with an undefined radius.
- Primitives.Round2D: requires a non-empty radius list, for the same reason.
- Primitives.Round3D: requires a non-empty radius list, for the same reason.
- Primitives.CornerRadius: requires a non-empty radius list, for the same reason.
- Tenome.ColumnOffsets: columns are integers; a fractional column would index outside the table in the engine.
- Tenome.ColumnSplay: columns are integers, for the same reason.
- Tenome.WebPost: the default offset is the device instance's post offset (half the post size); it is passed explicitly. The default z offset is 0; it is passed explicitly too.
- Key placement, thumb clusters, rim and wall enumerations, inserts, feet, case and plate assembly depend on option tables and holder classes that are not part of this model. So does the module-level device instance.
- `sphynx/preview-left.ts` is a top-level assembly script.
- Tenome.TriangleHulls: `None` stands for a `null` anchor. The engine filters only `null`, so an `undefined` anchor would be kept; that case is not modelled.
- Geometry (hull, intersection, volume) belongs to the external renderer.
