/** The hull-stitching helpers of tenome/Tenome.ts: windowed triangle hulls,
    walls closed down to a base slab, the corner posts of a key mount, and the
    per-column offset and splay tables. */
module Tenome {
  import opened Wrappers
  import opened V3
  import V2
  import opened Shapes

  /** Why stitching could not build a shell. */
  datatype StitchError = InsufficientAnchors

  // --------------------------------------------------------- column tables

  /** Per-column offsets, from the inner index column to the pinky column. */
  const ColumnOffsetTable: seq<Vec3> := [
    Vec3(0.0, 0.55, 0.0),
    Vec3(0.3, 0.2, 0.0),
    Vec3(1.0, 3.0, -2.5),
    Vec3(1.6, -1.5, -0.5),
    Vec3(1.4, -12.5, 2.0)
  ]

  /** Per-column splay table, in the same column order. */
  const SplayTable: seq<real> := [-1.0, -0.5, 0.0, 4.0, 8.0]

  /** The column index clamped into the range of a table of `n` entries. */
  function ClampColumn(column: int, n: nat): (c: nat)
    requires n > 0
    ensures c < n
    ensures 0 <= column < n ==> c == column
    ensures column < 0 ==> c == 0
    ensures column >= n ==> c == n - 1
  {
    if column < 0 then 0 else if column > n - 1 then n - 1 else column
  }

  /** `getColumnOffsets`: the table entry of the clamped column. */
  function ColumnOffsets(column: int): (v: Vec3)
    ensures 0 <= column < 5 ==> v == ColumnOffsetTable[column]
    ensures column < 0 ==> v == ColumnOffsetTable[0]
    ensures column >= 5 ==> v == ColumnOffsetTable[4]
  {
    ColumnOffsetTable[ClampColumn(column, |ColumnOffsetTable|)]
  }

  /** `getColumnSplay`: the negated table entry of the clamped column. */
  function ColumnSplay(column: int): (a: real)
    ensures 0 <= column < 5 ==> a == -SplayTable[column]
    ensures column < 0 ==> a == -SplayTable[0]
    ensures column >= 5 ==> a == -SplayTable[4]
    ensures -8.0 <= a <= 1.0
  {
    -SplayTable[ClampColumn(column, |SplayTable|)]
  }

  /** Columns left of the first reuse the first column's entries, columns
      right of the last reuse the last column's. */
  lemma ColumnsOutsideReuseEdges(column: int)
    ensures column <= 0 ==> ColumnOffsets(column) == ColumnOffsets(0) && ColumnSplay(column) == ColumnSplay(0)
    ensures column >= 4 ==> ColumnOffsets(column) == ColumnOffsets(4) && ColumnSplay(column) == ColumnSplay(4)
  {
  }

  /** The splay never increases from the inner column outwards. */
  lemma SplayNonIncreasing(c1: int, c2: int)
    requires c1 <= c2
    ensures ColumnSplay(c1) >= ColumnSplay(c2)
  {
    var i, j := ClampColumn(c1, 5), ClampColumn(c2, 5);
    assert i <= j;
  }

  // ----------------------------------------------------------------- posts

  /** The dimensions of a key mount the posts are placed on. */
  datatype Settings = Settings(mountWidth: real, mountHeight: real, keyholeThickness: real, webThickness: real)

  /** The four post positions, written as vertical then horizontal letter. */
  predicate IsCornerName(pos: string)
  {
    pos == "TL" || pos == "TR" || pos == "BL" || pos == "BR"
  }

  /** `getWebPost`: the shape moved to a corner of the mount, inset by `offset`
      from the left or right edge and from the top or bottom edge, at the
      height of the web below the keyhole's top plus `zOffset`. */
  function WebPost(pos: string, shape: Shape, offset: V2.Vec2, zOffset: real, s: Settings): (r: Shape)
    requires IsCornerName(pos)
    ensures r.Translate? && r.child == shape
    ensures pos[1] == 'L' ==> r.offset.x + s.mountWidth / 2.0 == offset.x
    ensures pos[1] == 'R' ==> s.mountWidth / 2.0 - r.offset.x == offset.x
    ensures pos[0] == 'T' ==> s.mountHeight / 2.0 - r.offset.y == offset.y
    ensures pos[0] == 'B' ==> r.offset.y + s.mountHeight / 2.0 == offset.y
    ensures r.offset.z == s.keyholeThickness - s.webThickness + zOffset
    ensures IsSolid(shape) ==> IsSolid(r)
  {
    var y, x := pos[0], pos[1];
    Translate(Vec3(
      if x == 'L' then s.mountWidth / -2.0 + offset.x else s.mountWidth / 2.0 - offset.x,
      if y == 'T' then s.mountHeight / 2.0 - offset.y else s.mountHeight / -2.0 + offset.y,
      s.keyholeThickness - s.webThickness + zOffset), shape)
  }

  datatype Posts = Posts(tr: Shape, tl: Shape, br: Shape, bl: Shape)

  /** Reflection of a point across the plane x = 0. */
  function MirrorX(v: Vec3): Vec3
  {
    Vec3(-v.x, v.y, v.z)
  }

  /** Reflection of a point across the plane y = 0. */
  function MirrorY(v: Vec3): Vec3
  {
    Vec3(v.x, -v.y, v.z)
  }

  /** `getPosts`: the same shape moved to the four corners. The top-right post
      is inset by `offset` from the right and top edges at the web height;
      right and left posts are mirror images across x = 0, top and bottom
      ones across y = 0. */
  function GetPosts(shape: Shape, offset: V2.Vec2, s: Settings): (p: Posts)
    ensures p.tr.Translate? && p.tl.Translate? && p.br.Translate? && p.bl.Translate?
    ensures p.tr.child == shape && p.tl.child == shape && p.br.child == shape && p.bl.child == shape
    ensures p.tr.offset == Vec3(s.mountWidth / 2.0 - offset.x, s.mountHeight / 2.0 - offset.y, s.keyholeThickness - s.webThickness)
    ensures p.tl.offset == MirrorX(p.tr.offset) && p.bl.offset == MirrorX(p.br.offset)
    ensures p.br.offset == MirrorY(p.tr.offset) && p.bl.offset == MirrorY(p.tl.offset)
  {
    Posts(
      WebPost("TR", shape, offset, 0.0, s),
      WebPost("TL", shape, offset, 0.0, s),
      WebPost("BR", shape, offset, 0.0, s),
      WebPost("BL", shape, offset, 0.0, s))
  }

  // ------------------------------------------------------------------ walls

  /** `buildWall(start, end)`: the hull of the two anchors, flattened, extruded
      one unit from the floor, and hulled with that original edge again. */
  function BuildWall(start: Shape, end: Shape): (r: Shape)
    requires IsSolid(start) && IsSolid(end)
    ensures IsSolid(r)
    ensures r.Hull? && |r.rest| == 1
    ensures r.rest[0] == Hull(start, [end])
    ensures r.base == LinearExtrude(1.0, Some(false), Projection(r.rest[0]))
  {
    var edge := Hull(start, [end]);
    assert forall t | t in [end] :: IsSolid(t);
    assert IsSolid(edge);
    var slab := LinearExtrude(1.0, Some(false), Projection(edge));
    assert IsProfile(Projection(edge));
    assert IsSolid(slab);
    assert forall t | t in [edge] :: IsSolid(t);
    assert SameDim(slab, [edge]);
    Hull(slab, [edge])
  }

  // ---------------------------------------------------------- triangle hulls

  /** The anchors that are present (`None` is a `null` placeholder), in their
      original order (`PresentKeepsOrder`) and each as often as it occurs
      (`PresentMultiplicity`). */
  function Present(args: seq<Option<Shape>>): (r: seq<Shape>)
    ensures |r| <= |args|
    ensures forall x :: x in r <==> Some(x) in args
  {
    if |args| == 0 then []
    else if args[0].None? then
      assert forall x :: Some(x) in args <==> Some(x) in args[1..];
      Present(args[1..])
    else
      var tail := Present(args[1..]);
      assert forall x :: Some(x) in args <==> x == args[0].value || Some(x) in args[1..];
      [args[0].value] + tail
  }

  /** Each present anchor is kept exactly as often as it is given. */
  lemma {:induction false} PresentMultiplicity(args: seq<Option<Shape>>, x: Shape)
    ensures multiset(Present(args))[x] == multiset(args)[Some(x)]
    decreases |args|
  {
    if |args| > 0 {
      assert args == [args[0]] + args[1..];
      assert multiset(args) == multiset{args[0]} + multiset(args[1..]);
      PresentMultiplicity(args[1..], x);
      if args[0].Some? {
        assert Present(args) == [args[0].value] + Present(args[1..]);
        assert multiset(Present(args)) == multiset{args[0].value} + multiset(Present(args[1..]));
      }
    }
  }

  /** Filtering keeps the order: the present anchors of every prefix come
      first, in the same order. */
  lemma PresentKeepsOrder(args: seq<Option<Shape>>, k: nat)
    requires k <= |args|
    ensures Present(args[..k]) <= Present(args)
  {
    assert args == args[..k] + args[k..];
    PresentConcat(args[..k], args[k..]);
  }

  /** Filtering distributes over concatenation. */
  lemma {:induction false} PresentConcat(a: seq<Option<Shape>>, b: seq<Option<Shape>>)
    ensures Present(a + b) == Present(a) + Present(b)
    decreases |a|
  {
    if |a| == 0 {
      assert a + b == b;
    } else {
      assert (a + b)[0] == a[0];
      assert (a + b)[1..] == a[1..] + b;
      PresentConcat(a[1..], b);
    }
  }

  /** The overlapping runs of three consecutive elements, sliding by one:
      what `partition(xs, 3, 1)` yields, assumed to keep only full runs. */
  function Windows3<T>(xs: seq<T>): (ws: seq<seq<T>>)
    ensures |xs| < 3 ==> |ws| == 0
    ensures |xs| >= 3 ==> |ws| == |xs| - 2
    ensures forall i :: 0 <= i < |ws| ==> |ws[i]| == 3 && ws[i][0] == xs[i] && ws[i][1] == xs[i + 1] && ws[i][2] == xs[i + 2]
  {
    if |xs| < 3 then [] else seq(|xs| - 2, i requires 0 <= i < |xs| - 2 => xs[i..i + 3])
  }

  /** The hull of one window, its first anchor as base. */
  function WindowHull(w: seq<Shape>): Shape
    requires |w| == 3
  {
    Hull(w[0], w[1..])
  }

  predicate AllSolid(xs: seq<Shape>)
  {
    forall i :: 0 <= i < |xs| ==> IsSolid(xs[i])
  }

  /** The anchors given, as `Shape3`s or null placeholders. */
  predicate AnchorsSolid(args: seq<Option<Shape>>)
  {
    forall i :: 0 <= i < |args| && args[i].Some? ==> IsSolid(args[i].value)
  }

  lemma PresentSolid(args: seq<Option<Shape>>)
    requires AnchorsSolid(args)
    ensures AllSolid(Present(args))
  {
    var v := Present(args);
    forall i | 0 <= i < |v|
      ensures IsSolid(v[i])
    {
      assert v[i] in v;
      var k :| 0 <= k < |args| && args[k] == Some(v[i]);
    }
  }

  /** The hull of each window of three consecutive anchors, in window order. */
  function WindowHulls(v: seq<Shape>): (hs: seq<Shape>)
    requires |v| >= 3 && AllSolid(v)
    ensures |hs| == |v| - 2 && AllSolid(hs)
    ensures forall k :: 0 <= k < |hs| ==> hs[k] == Hull(v[k], [v[k + 1], v[k + 2]])
  {
    var ws := Windows3(v);
    var hs := seq(|ws|, i requires 0 <= i < |ws| => WindowHull(ws[i]));
    assert forall k :: 0 <= k < |hs| ==> hs[k] == Hull(v[k], [v[k + 1], v[k + 2]]) by {
      forall k | 0 <= k < |hs|
        ensures hs[k] == Hull(v[k], [v[k + 1], v[k + 2]])
      {
        assert ws[k][1..] == [v[k + 1], v[k + 2]];
      }
    }
    assert AllSolid(hs) by {
      forall k | 0 <= k < |hs|
        ensures IsSolid(hs[k])
      {
        assert forall t | t in [v[k + 1], v[k + 2]] :: IsSolid(t);
      }
    }
    hs
  }

  /** `first.union(...rest)` over a non-empty list of solids. */
  function UnionAll(hs: seq<Shape>): (u: Shape)
    requires |hs| > 0 && AllSolid(hs)
    ensures IsSolid(u)
    ensures u.Union? && u.base == hs[0] && u.rest == hs[1..]
  {
    assert forall t | t in hs[1..] :: IsSolid(t);
    Union(hs[0], hs[1..])
  }

  /** `triangleHulls(...args)`: `None` stands for a `null` anchor. The present anchors, windowed by threes, each
      window hulled, the hulls unioned in order with the first as base. It
      fails exactly when fewer than three anchors are present. */
  function TriangleHulls(args: seq<Option<Shape>>): (r: Result<Shape, StitchError>)
    requires AnchorsSolid(args)
    ensures r.Success? <==> |Present(args)| >= 3
    ensures r.Success? ==>
      var v := Present(args);
      && IsSolid(r.value)
      && r.value.Union?
      && r.value.base == Hull(v[0], [v[1], v[2]])
      && |r.value.rest| == |v| - 3
      && forall k :: 0 <= k < |r.value.rest| ==> r.value.rest[k] == Hull(v[k + 1], [v[k + 2], v[k + 3]])
  {
    var v := Present(args);
    if |Windows3(v)| == 0 then Failure(InsufficientAnchors)
    else
      PresentSolid(args);
      Success(UnionAll(WindowHulls(v)))
  }

  /** A null placeholder anywhere in the anchor list changes nothing. */
  lemma NullsIgnored(a: seq<Option<Shape>>, b: seq<Option<Shape>>)
    requires AnchorsSolid(a + b)
    ensures AnchorsSolid(a + [None] + b)
    ensures TriangleHulls(a + [None] + b) == TriangleHulls(a + b)
  {
    PresentConcat(a, [None] + b);
    PresentConcat([None], b);
    PresentConcat(a, b);
    assert Present([None]) == [];
    assert a + [None] + b == a + ([None] + b);
    assert AnchorsSolid(a + [None] + b) by {
      var c := a + [None] + b;
      forall i | 0 <= i < |c| && c[i].Some?
        ensures IsSolid(c[i].value)
      {
        if i < |a| {
          assert c[i] == (a + b)[i];
        } else {
          assert c[i] == (a + b)[i - 1];
        }
      }
    }
  }

  /** `triangleHulls(A, null, B, C, D)` is `triangleHulls(A, B, C, D)`. */
  lemma NullExample(a: Shape, b: Shape, c: Shape, d: Shape)
    requires IsSolid(a) && IsSolid(b) && IsSolid(c) && IsSolid(d)
    ensures AnchorsSolid([Some(a), None, Some(b), Some(c), Some(d)])
    ensures TriangleHulls([Some(a), None, Some(b), Some(c), Some(d)]) == TriangleHulls([Some(a), Some(b), Some(c), Some(d)])
  {
    assert [Some(a), None, Some(b), Some(c), Some(d)] == [Some(a)] + [None] + [Some(b), Some(c), Some(d)];
    assert [Some(a), Some(b), Some(c), Some(d)] == [Some(a)] + [Some(b), Some(c), Some(d)];
    NullsIgnored([Some(a)], [Some(b), Some(c), Some(d)]);
  }

  /** Every two consecutive present anchors share a window, so the union of
      window hulls follows the anchor path without gaps. */
  lemma ConsecutiveAnchorsShareWindow<T>(xs: seq<T>, i: nat)
    requires |xs| >= 3 && i + 1 < |xs|
    ensures var w := if i <= |xs| - 3 then i else |xs| - 3;
      w < |Windows3(xs)| && xs[i] in Windows3(xs)[w] && xs[i + 1] in Windows3(xs)[w]
  {
    var w := if i <= |xs| - 3 then i else |xs| - 3;
    var ws := Windows3(xs);
    assert ws[w] == [xs[w], xs[w + 1], xs[w + 2]];
  }

  /** Five anchors give the three windows ABC, BCD and CDE. */
  lemma WindowsExample<T>(a: T, b: T, c: T, d: T, e: T)
    ensures Windows3([a, b, c, d, e]) == [[a, b, c], [b, c, d], [c, d, e]]
  {
    var ws := Windows3([a, b, c, d, e]);
    assert ws[0] == [a, b, c] && ws[1] == [b, c, d] && ws[2] == [c, d, e];
  }

  /** The engine's filter loop over the arguments: it keeps exactly `Present(args)`. */
  method FilterPresent(args: seq<Option<Shape>>) returns (valid: seq<Shape>)
    ensures valid == Present(args)
  {
    valid := [];
    var i := 0;
    while i < |args|
      invariant 0 <= i <= |args|
      invariant valid == Present(args[..i])
    {
      PresentConcat(args[..i], [args[i]]);
      assert args[..i + 1] == args[..i] + [args[i]];
      if args[i].Some? {
        valid := valid + [args[i].value];
      }
      i := i + 1;
    }
    assert args[..i] == args;
  }

  /** The loop the engine runs: filter the nulls, hull each window in turn,
      then union the hulls. It builds exactly `TriangleHulls(args)`. */
  method StitchAnchors(args: seq<Option<Shape>>) returns (r: Result<Shape, StitchError>)
    requires AnchorsSolid(args)
    ensures r == TriangleHulls(args)
  {
    var valid := FilterPresent(args);
    var groups := Windows3(valid);
    var shapes: seq<Shape> := [];
    var k := 0;
    while k < |groups|
      invariant 0 <= k <= |groups|
      invariant |shapes| == k
      invariant forall m :: 0 <= m < k ==> shapes[m] == WindowHull(groups[m])
    {
      shapes := shapes + [WindowHull(groups[k])];
      k := k + 1;
    }
    if |shapes| == 0 {
      r := Failure(InsufficientAnchors);
    } else {
      PresentSolid(args);
      assert shapes == WindowHulls(valid) by {
        forall m | 0 <= m < |shapes|
          ensures shapes[m] == WindowHulls(valid)[m]
        {
          assert groups[m][1..] == [valid[m + 1], valid[m + 2]];
        }
      }
      r := Success(Union(shapes[0], shapes[1..]));
    }
  }
}
