/** The shape model: an immutable tree of CSG statements with a 2D/3D tag.

    The statement classes of the engine keep a list of rendered statements;
    here each statement is a node of a tagged tree, so that nesting and
    dimensionality are facts about a value rather than about text. Only the
    text of leaf statements is modelled, because the rendering of operator
    statements lives in sources that are not part of this model. */
module Shapes {
  import opened Wrappers
  import opened V3
  import V2

  /** Planar profiles (`Shape2`) and solids (`Shape3`). */
  datatype Dim = D2 | D3

  /** The primitive statements the factory emits, named as in the emitted text. */
  datatype LeafKind = Circle | Square | Polygon | Text | Sphere | Cube | Cylinder | Ployhedron

  /** A radius-or-diameter property record: `{r}` or `{d}`, never both. */
  datatype Round = Radius(r: real) | Diameter(d: real)

  /** The four mutually exclusive cylinder profiles: `{r}`, `{r1, r2}`, `{d}`, `{d1, d2}`. */
  datatype Frustum =
    | R(r: real)
    | R12(r1: real, r2: real)
    | D(d: real)
    | D12(d1: real, d2: real)

  /** The property records handed to the serializer. Optional fields are `Option`s,
      so an absent field is a value the serializer can leave out. */
  datatype Args =
    | CircleArgs(round: Round, fn: Option<real>)
    | Size2(size2: V2.Vec2)
    | Size3(size3: Vec3)
    | PolygonArgs(points: seq<V2.Vec2>, convexity: Option<real>)
    | TextArgs(text: string)
    | CylinderArgs(frustum: Frustum, h: real, cylinderFn: Option<real>)
    | PolyhedronArgs(vertices: seq<Vec3>, faces: seq<Vec3>, faceConvexity: real)

  /** A CSG expression. Operators with operand lists keep their first operand
      apart (`base`), as the engine's `first.op(...rest)` calls do. */
  datatype Shape =
    | Leaf(kind: LeafKind, args: Args)
    | Translate(offset: Vec3, child: Shape)
    | Rotate(angles: Vec3, child: Shape)
    | Hull(base: Shape, rest: seq<Shape>)
    | Union(base: Shape, rest: seq<Shape>)
    | Intersection(base: Shape, rest: seq<Shape>)
    | Difference(base: Shape, rest: seq<Shape>)
    | Projection(child: Shape)
    | LinearExtrude(height: real, center: Option<bool>, child: Shape)

  /** The dimension each primitive statement produces; `text` is built as a 3D shape. */
  function KindDim(kind: LeafKind): Dim
  {
    match kind
    case Circle | Square | Polygon => D2
    case Text | Sphere | Cube | Cylinder | Ployhedron => D3
  }

  /** The property record each primitive statement takes. */
  predicate ArgsFit(kind: LeafKind, args: Args)
  {
    match kind
    case Circle | Sphere => args.CircleArgs?
    case Square => args.Size2?
    case Cube => args.Size3?
    case Polygon => args.PolygonArgs?
    case Text => args.TextArgs?
    case Cylinder => args.CylinderArgs?
    case Ployhedron => args.PolyhedronArgs?
  }

  /** The dimension of the value an expression denotes. */
  function DimOf(s: Shape): Dim
  {
    match s
    case Leaf(kind, _) => KindDim(kind)
    case Translate(_, c) => DimOf(c)
    case Rotate(_, c) => DimOf(c)
    case Hull(b, _) => DimOf(b)
    case Union(b, _) => DimOf(b)
    case Intersection(b, _) => DimOf(b)
    case Difference(b, _) => DimOf(b)
    case Projection(_) => D2
    case LinearExtrude(_, _, _) => D3
  }

  /** Every operand of an n-ary operator has the dimension of its base. */
  predicate SameDim(base: Shape, rest: seq<Shape>)
  {
    forall i :: 0 <= i < |rest| ==> DimOf(rest[i]) == DimOf(base)
  }

  /** The typing discipline of the two shape classes: leaves carry the record
      their statement takes, n-ary operators never mix dimensions, projection
      flattens a solid and extrusion lifts a profile. */
  predicate WellFormed(s: Shape)
  {
    match s
    case Leaf(kind, args) => ArgsFit(kind, args)
    case Translate(_, c) => WellFormed(c)
    case Rotate(_, c) => WellFormed(c)
    case Hull(b, rest) => WellFormed(b) && SameDim(b, rest) && forall t | t in rest :: WellFormed(t)
    case Union(b, rest) => WellFormed(b) && SameDim(b, rest) && forall t | t in rest :: WellFormed(t)
    case Intersection(b, rest) => WellFormed(b) && SameDim(b, rest) && forall t | t in rest :: WellFormed(t)
    case Difference(b, rest) => WellFormed(b) && SameDim(b, rest) && forall t | t in rest :: WellFormed(t)
    case Projection(c) => WellFormed(c) && DimOf(c) == D3
    case LinearExtrude(_, _, c) => WellFormed(c) && DimOf(c) == D2
  }

  /** A well-formed solid: what a `Shape3` value holds. */
  predicate IsSolid(s: Shape)
  {
    WellFormed(s) && DimOf(s) == D3
  }

  /** A well-formed profile: what a `Shape2` value holds. */
  predicate IsProfile(s: Shape)
  {
    WellFormed(s) && DimOf(s) == D2
  }

  /** The statement identifier each primitive emits (the polyhedron one is spelled as the engine spells it). */
  function Name(kind: LeafKind): string
  {
    match kind
    case Circle => "circle"
    case Square => "square"
    case Polygon => "polygon"
    case Text => "text"
    case Sphere => "sphere"
    case Cube => "cube"
    case Cylinder => "cylinder"
    case Ployhedron => "ployhedron"
  }

  predicate EndsWith(t: string, suffix: string)
  {
    |suffix| <= |t| && t[|t| - |suffix|..] == suffix
  }

  /** The fixed text before the serialized record in a leaf statement. */
  function Prefix(kind: LeafKind): string
  {
    match kind
    case Cube => "cube(size="
    case Square => "square(size="
    case Cylinder => "cylinder(center=true, "
    case _ => Name(kind) + "("
  }

  /** The fixed text after the serialized record in a leaf statement. */
  function Suffix(kind: LeafKind): string
  {
    if kind == Cube || kind == Square then ", center=true);" else ");"
  }

  /** The text of one leaf statement, given the serializer `ser` that renders a
      property record as argument text. Every leaf renders as one statement
      `name(...);` holding the serialized record exactly once between a fixed
      prefix and suffix; boxes and rectangles are always centred, and a
      cylinder states `center=true` before its serialized record. */
  function LeafText(kind: LeafKind, args: Args, ser: Args -> string): (t: string)
    ensures Name(kind) + "(" <= t
    ensures EndsWith(t, ");")
    ensures kind == Cube ==> "cube(size=" <= t
    ensures kind == Square ==> "square(size=" <= t
    ensures kind == Cube || kind == Square ==> EndsWith(t, ", center=true);")
    ensures kind == Cylinder ==> Name(kind) + "(center=true, " <= t
    ensures t == Prefix(kind) + ser(args) + Suffix(kind)
  {
    var t := Prefix(kind) + ser(args) + Suffix(kind);
    OpeningFacts(kind, ser(args));
    KindOpeningFacts(kind, ser(args));
    ClosingFacts(kind, ser(args));
    t
  }

  /** Every statement opens with its name and a parenthesis. */
  lemma OpeningFacts(kind: LeafKind, x: string)
    ensures Name(kind) + "(" <= Prefix(kind) + x + Suffix(kind)
  {
    Framed(Prefix(kind), x, Suffix(kind));
    NameOpensPrefix(kind);
    PrefixOfPrefix(Name(kind) + "(", Prefix(kind), Prefix(kind) + x + Suffix(kind));
  }

  /** Boxes and rectangles open with their size; a cylinder opens by centring itself. */
  lemma KindOpeningFacts(kind: LeafKind, x: string)
    ensures kind == Cube ==> "cube(size=" <= Prefix(kind) + x + Suffix(kind)
    ensures kind == Square ==> "square(size=" <= Prefix(kind) + x + Suffix(kind)
    ensures kind == Cylinder ==> Name(kind) + "(center=true, " <= Prefix(kind) + x + Suffix(kind)
  {
    Framed(Prefix(kind), x, Suffix(kind));
  }

  /** What the closing frame of each kind pins about any text it holds. */
  lemma ClosingFacts(kind: LeafKind, x: string)
    ensures EndsWith(Prefix(kind) + x + Suffix(kind), ");")
    ensures kind == Cube || kind == Square ==> EndsWith(Prefix(kind) + x + Suffix(kind), ", center=true);")
  {
    var pre, post := Prefix(kind), Suffix(kind);
    Framed(pre, x, post);
    assert post[|post| - 2..] == ");";
    SuffixOfSuffix(pre + x + post, post, ");");
  }

  /** Every prefix opens with the statement's name and a parenthesis. */
  lemma NameOpensPrefix(kind: LeafKind)
    ensures Name(kind) + "(" <= Prefix(kind)
  {
    match kind
    case Cube => assert Prefix(kind)[..5] == "cube(";
    case Square => assert Prefix(kind)[..7] == "square(";
    case Cylinder => assert Prefix(kind)[..9] == "cylinder(";
    case _ =>
  }

  /** A prefix of a prefix is a prefix. */
  lemma PrefixOfPrefix(head: string, pre: string, t: string)
    requires pre <= t
    requires head <= pre
    ensures head <= t
  {
  }

  /** A suffix of a suffix is a suffix. */
  lemma SuffixOfSuffix(t: string, post: string, tail: string)
    requires EndsWith(t, post) && EndsWith(post, tail)
    ensures EndsWith(t, tail)
  {
    assert t[|t| - |tail|..] == post[|post| - |tail|..];
  }

  /** Framed text starts with its prefix and ends with its suffix. */
  lemma Framed(pre: string, x: string, post: string)
    ensures pre <= pre + x + post
    ensures EndsWith(pre + x + post, post)
  {
    assert (pre + x + post)[..|pre|] == pre;
    assert (pre + x + post)[|pre + x + post| - |post|..] == post;
  }

  /** Text framed by a fixed prefix and suffix determines what it frames. */
  lemma FramedEqual(pre: string, x: string, y: string, post: string)
    ensures pre + x + post == pre + y + post <==> x == y
  {
    if pre + x + post == pre + y + post {
      assert |x| == |y|;
      assert x == (pre + x + post)[|pre|..|pre| + |x|];
      assert y == (pre + y + post)[|pre|..|pre| + |y|];
    }
  }

  /** A leaf statement's text determines its argument text, and nothing else
      about the record is rendered: two records of one kind render alike
      exactly when the serializer renders them alike. */
  lemma LeafTextDeterminesArgs(kind: LeafKind, a: Args, b: Args, ser: Args -> string)
    ensures LeafText(kind, a, ser) == LeafText(kind, b, ser) <==> ser(a) == ser(b)
  {
    FramedEqual(Prefix(kind), ser(a), ser(b), Suffix(kind));
  }
}
