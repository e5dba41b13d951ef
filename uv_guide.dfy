/** The UV guide that loadGLB traces onto the shared 2D context of the uv canvas
    (src/client/main.js:177-190): for every index triple, in index-array order, a
    moveTo to the first corner and lineTo's to the second, the third and the first
    again, each corner projected from its (u, v) pair to (u * w, v * h).

    JavaScript reads past the end of a typed array as `undefined`, and arithmetic on
    `undefined` yields NaN; Num keeps that outcome instead of forbidding it, and the
    canvas then skips the calls that carry it. */
module UvGuide {
  import opened Wrappers

  /** A coordinate as the loop computes it. */
  datatype Num = Finite(value: real) | NaN

  datatype Point = Point(x: Num, y: Num)

  datatype PathCommand = MoveTo(p: Point) | LineTo(p: Point)

  /** index[j], or undefined when j is past the end. */
  function IndexAt(index: seq<nat>, j: nat): Option<nat> {
    if j < |index| then Some(index[j]) else None
  }

  /** uvs[k] * scale; undefined (so NaN) when k is undefined or past the end. */
  function Scaled(uvs: seq<real>, k: Option<nat>, scale: real): Num {
    if k.Some? && k.value < |uvs| then Finite(uvs[k.value] * scale) else NaN
  }

  /** The point for index slot j: `idx = index[j] * 2`, then
      `(uvs[idx] * w, uvs[idx + 1] * h)`. */
  function Corner(uvs: seq<real>, index: seq<nat>, j: nat, w: real, h: real): (r: Point)
    ensures FinitePoint(r) <==> j < |index| && 2 * index[j] + 1 < |uvs|
  {
    match IndexAt(index, j)
    case None => Point(NaN, NaN)
    case Some(v) => Point(Scaled(uvs, Some(2 * v), w), Scaled(uvs, Some(2 * v + 1), h))
  }

  /** One pass of the loop body, for the triangle whose first slot is i. */
  function TriangleCommands(uvs: seq<real>, index: seq<nat>, i: nat, w: real, h: real): (r: seq<PathCommand>)
    ensures |r| == 4 && r[0].MoveTo? && r[1].LineTo? && r[2].LineTo? && r[3] == LineTo(r[0].p)
  {
    [MoveTo(Corner(uvs, index, i, w, h)),
     LineTo(Corner(uvs, index, i + 1, w, h)),
     LineTo(Corner(uvs, index, i + 2, w, h)),
     LineTo(Corner(uvs, index, i, w, h))]
  }

  /** How many times `for (let i = 0; i < n; i += 3)` runs its body. */
  function Passes(n: nat): nat {
    (n + 2) / 3
  }

  /** The commands of the first t passes. */
  function GuidePrefix(uvs: seq<real>, index: seq<nat>, t: nat, w: real, h: real): (r: seq<PathCommand>)
    ensures |r| == 4 * t
  {
    if t == 0 then [] else GuidePrefix(uvs, index, t - 1, w, h) + TriangleCommands(uvs, index, 3 * (t - 1), w, h)
  }

  /** Everything one loadGLB adds to the guide path: four commands per pass of the
      loop, whatever the index data, and nothing at all for an empty index array. */
  function Guide(uvs: seq<real>, index: seq<nat>, w: real, h: real): (r: seq<PathCommand>)
    ensures |r| == 4 * Passes(|index|)
    ensures |index| == 0 ==> r == []
  {
    GuidePrefix(uvs, index, Passes(|index|), w, h)
  }

  /** The index data a well-formed glTF triangle mesh supplies: whole triangles,
      every vertex with its (u, v) pair. */
  predicate WellFormed(uvs: seq<real>, index: seq<nat>) {
    |index| % 3 == 0 && forall j :: 0 <= j < |index| ==> 2 * index[j] + 1 < |uvs|
  }

  /** Vertex k of the mesh projected into the w-by-h canvas. */
  function Project(uvs: seq<real>, k: nat, w: real, h: real): Point
    requires 2 * k + 1 < |uvs|
  {
    Point(Finite(uvs[2 * k] * w), Finite(uvs[2 * k + 1] * h))
  }

  // ---------------------------------------------------------------- lemmas

  /** In a well-formed mesh every index slot reads a finite, projected point. */
  lemma CornerProjects(uvs: seq<real>, index: seq<nat>, j: nat, w: real, h: real)
    requires WellFormed(uvs, index)
    requires j < |index|
    ensures Corner(uvs, index, j, w, h) == Project(uvs, index[j], w, h)
  {
    var v := index[j];
    assert 2 * v + 1 < |uvs|;
    assert IndexAt(index, j) == Some(v);
    assert Scaled(uvs, Some(2 * v), w) == Finite(uvs[2 * v] * w);
    assert Scaled(uvs, Some(2 * v + 1), h) == Finite(uvs[2 * v + 1] * h);
  }

  /** Command k of the first t passes comes from pass k / 4, at place k % 4 of it. */
  lemma {:induction false} GuidePrefixAt(uvs: seq<real>, index: seq<nat>, t: nat, w: real, h: real, k: nat)
    requires k < 4 * t
    ensures |GuidePrefix(uvs, index, t, w, h)| == 4 * t
    ensures GuidePrefix(uvs, index, t, w, h)[k] == TriangleCommands(uvs, index, 3 * (k / 4), w, h)[k % 4]
  {
    var prev := GuidePrefix(uvs, index, t - 1, w, h);
    if k < 4 * (t - 1) {
      GuidePrefixAt(uvs, index, t - 1, w, h, k);
    } else {
      assert k / 4 == t - 1;
    }
  }

  /** For a well-formed mesh, triangle t (index slots 3t, 3t+1, 3t+2 = a, b, c)
      contributes exactly moveTo(a), lineTo(b), lineTo(c), lineTo(a) at places
      4t .. 4t+3, each corner being its vertex's projection: the outline is closed. */
  lemma GuideTriangle(uvs: seq<real>, index: seq<nat>, w: real, h: real, t: nat)
    requires WellFormed(uvs, index)
    requires t < |index| / 3
    ensures |Guide(uvs, index, w, h)| == 4 * (|index| / 3)
    ensures Guide(uvs, index, w, h)[4 * t .. 4 * t + 4] ==
      [MoveTo(Project(uvs, index[3 * t], w, h)),
       LineTo(Project(uvs, index[3 * t + 1], w, h)),
       LineTo(Project(uvs, index[3 * t + 2], w, h)),
       LineTo(Project(uvs, index[3 * t], w, h))]
  {
    var n := |index| / 3;
    assert |index| == 3 * n;
    assert Passes(|index|) == n;
    GuidePrefixSlice(uvs, index, n, w, h, t);
    CornerProjects(uvs, index, 3 * t, w, h);
    CornerProjects(uvs, index, 3 * t + 1, w, h);
    CornerProjects(uvs, index, 3 * t + 2, w, h);
  }

  /** Pass t of the loop owns places 4t .. 4t+3 of every longer prefix. */
  lemma {:induction false} GuidePrefixSlice(uvs: seq<real>, index: seq<nat>, n: nat, w: real, h: real, t: nat)
    requires t < n
    ensures |GuidePrefix(uvs, index, n, w, h)| == 4 * n
    ensures GuidePrefix(uvs, index, n, w, h)[4 * t .. 4 * t + 4] == TriangleCommands(uvs, index, 3 * t, w, h)
  {
    var prev := GuidePrefix(uvs, index, n - 1, w, h);
    var tri := TriangleCommands(uvs, index, 3 * (n - 1), w, h);
    assert GuidePrefix(uvs, index, n, w, h) == prev + tri;
    if t == n - 1 {
      assert 3 * t == 3 * (n - 1);
      assert tri == TriangleCommands(uvs, index, 3 * t, w, h);
      SliceAtEnd(prev, tri);
    } else {
      GuidePrefixSlice(uvs, index, n - 1, w, h, t);
      SliceOfFront(prev, tri, 4 * t, 4 * t + 4);
    }
  }

  lemma SliceAtEnd<T>(a: seq<T>, b: seq<T>)
    ensures (a + b)[|a| .. |a| + |b|] == b
  {
  }

  lemma SliceOfFront<T>(a: seq<T>, b: seq<T>, i: nat, j: nat)
    requires i <= j <= |a|
    ensures (a + b)[i .. j] == a[i .. j]
  {
  }

  /** For a well-formed mesh every coordinate is finite, and every command is the
      projection of the vertex its index slot names: pass k / 4 draws slot
      3 * (k / 4) + [0, 1, 2, 0][k % 4], starting with a moveTo. */
  lemma WellFormedGuideAt(uvs: seq<real>, index: seq<nat>, w: real, h: real, k: nat)
    requires WellFormed(uvs, index)
    requires k < 4 * (|index| / 3)
    ensures k < |Guide(uvs, index, w, h)|
    ensures var slot := 3 * (k / 4) + (if k % 4 == 3 then 0 else k % 4);
      Guide(uvs, index, w, h)[k] ==
        if k % 4 == 0 then MoveTo(Project(uvs, index[slot], w, h))
        else LineTo(Project(uvs, index[slot], w, h))
  {
    var n := |index| / 3;
    assert |index| == 3 * n;
    assert Passes(|index|) == n;
    GuidePrefixAt(uvs, index, n, w, h, k);
    var q, r := k / 4, k % 4;
    assert k == 4 * q + r && r < 4;
    assert q < n;
    var first := 3 * q;
    assert first + 2 < |index|;
    var slot := first + (if r == 3 then 0 else r);
    CornerProjects(uvs, index, slot, w, h);
  }

  // ---------------------------------------------------------------- the canvas path

  /** Both coordinates are finite numbers. */
  predicate FinitePoint(p: Point) {
    p.x.Finite? && p.y.Finite?
  }

  /** The path after one call of moveTo or lineTo on a 2D context: a call with a
      coordinate that is infinite or NaN returns without changing anything, and a
      lineTo on a path with no subpath only starts one at its point, as a moveTo
      would (the CanvasPath methods of the HTML Living Standard, section 4.12.5.1). */
  function Draw(path: seq<PathCommand>, c: PathCommand): (r: seq<PathCommand>)
    ensures r == path || (|r| == |path| + 1 && r[..|path|] == path && r[|path|].p == c.p)
  {
    if !FinitePoint(c.p) then path
    else if c.LineTo? && path == [] then [MoveTo(c.p)]
    else path + [c]
  }

  /** The path after the calls cmds, in order. It keeps what it held and grows by
      at most one command per call. */
  function Drawn(path: seq<PathCommand>, cmds: seq<PathCommand>): (r: seq<PathCommand>)
    ensures |path| <= |r| <= |path| + |cmds| && r[..|path|] == path
    decreases |cmds|
  {
    if cmds == [] then path else Draw(Drawn(path, cmds[..|cmds| - 1]), cmds[|cmds| - 1])
  }

  lemma DrawnStep(path: seq<PathCommand>, cmds: seq<PathCommand>, k: nat)
    requires k < |cmds|
    ensures Drawn(path, cmds[..k + 1]) == Draw(Drawn(path, cmds[..k]), cmds[k])
  {
    assert cmds[..k + 1][..k] == cmds[..k];
  }

  /** Calls made in two batches draw what they draw in one. */
  lemma {:induction false} DrawnAppend(path: seq<PathCommand>, a: seq<PathCommand>, b: seq<PathCommand>)
    ensures Drawn(path, a + b) == Drawn(Drawn(path, a), b)
    decreases |b|
  {
    if b == [] {
      assert a + b == a;
    } else {
      var init, last := b[..|b| - 1], b[|b| - 1];
      assert (a + b)[..|a + b| - 1] == a + init;
      assert (a + b)[|a + b| - 1] == last;
      DrawnAppend(path, a, init);
    }
  }

  /** The path never holds a point that is not finite, and it starts with a moveTo. */
  lemma {:induction false} DrawnFinite(path: seq<PathCommand>, cmds: seq<PathCommand>)
    requires forall k :: 0 <= k < |path| ==> FinitePoint(path[k].p)
    requires path != [] ==> path[0].MoveTo?
    ensures var r := Drawn(path, cmds);
      (forall k :: 0 <= k < |r| ==> FinitePoint(r[k].p)) && (r != [] ==> r[0].MoveTo?)
    decreases |cmds|
  {
    if cmds != [] {
      DrawnFinite(path, cmds[..|cmds| - 1]);
    }
  }

  /** Calls whose points are all finite and that start with a moveTo (or go to a
      path that already has one) are drawn exactly as made. */
  lemma {:induction false} DrawnAsCalled(path: seq<PathCommand>, cmds: seq<PathCommand>)
    requires forall k :: 0 <= k < |cmds| ==> FinitePoint(cmds[k].p)
    requires path == [] && cmds != [] ==> cmds[0].MoveTo?
    ensures Drawn(path, cmds) == path + cmds
    decreases |cmds|
  {
    if cmds != [] {
      var init := cmds[..|cmds| - 1];
      DrawnAsCalled(path, init);
      assert path + init + [cmds[|cmds| - 1]] == path + cmds;
    }
  }

  /** For a well-formed mesh the canvas keeps every call loadGLB makes. */
  lemma GuideDrawnAsCalled(path: seq<PathCommand>, uvs: seq<real>, index: seq<nat>, w: real, h: real)
    requires WellFormed(uvs, index)
    ensures Drawn(path, Guide(uvs, index, w, h)) == path + Guide(uvs, index, w, h)
  {
    var g := Guide(uvs, index, w, h);
    assert |index| == 3 * (|index| / 3);
    forall k | 0 <= k < |g|
      ensures FinitePoint(g[k].p) && (k == 0 ==> g[k].MoveTo?)
    {
      WellFormedGuideAt(uvs, index, w, h, k);
    }
    DrawnAsCalled(path, g);
  }

  /** A trailing index left over from whole triangles reads undefined: its pass
      draws only the moveTo and the closing lineTo of its first corner. */
  lemma PartialTriangleDropsUndefined(uvs: seq<real>, v: nat, w: real, h: real)
    requires 2 * v + 1 < |uvs|
    ensures Drawn([], Guide(uvs, [v], w, h)) ==
      [MoveTo(Project(uvs, v, w, h)), LineTo(Project(uvs, v, w, h))]
  {
    var a := Project(uvs, v, w, h);
    var nan := Point(NaN, NaN);
    assert Passes(1) == 1;
    assert IndexAt([v], 0) == Some(v) && IndexAt([v], 1) == None && IndexAt([v], 2) == None;
    assert Scaled(uvs, Some(2 * v), w) == Finite(uvs[2 * v] * w);
    assert Scaled(uvs, Some(2 * v + 1), h) == Finite(uvs[2 * v + 1] * h);
    assert GuidePrefix(uvs, [v], 1, w, h) == [] + TriangleCommands(uvs, [v], 0, w, h);
    assert Guide(uvs, [v], w, h) == [MoveTo(a), LineTo(nan), LineTo(nan), LineTo(a)];
    OutlineSkipsUndefined(a, nan);
  }

  /** An outline whose second and third corners are not finite draws its first
      corner and the line back to it. */
  lemma OutlineSkipsUndefined(a: Point, b: Point)
    requires FinitePoint(a) && !FinitePoint(b)
    ensures Drawn([], [MoveTo(a), LineTo(b), LineTo(b), LineTo(a)]) == [MoveTo(a), LineTo(a)]
  {
    var g := [MoveTo(a), LineTo(b), LineTo(b), LineTo(a)];
    assert g[..0] == [];
    DrawnStep([], g, 0);
    DrawnStep([], g, 1);
    DrawnStep([], g, 2);
    DrawnStep([], g, 3);
    assert g[..4] == g;
  }

  /** The current path of the uv canvas's 2D context. Nothing in the program calls
      beginPath, so the path only ever grows. */
  class PathContext {
    var path: seq<PathCommand>

    constructor ()
      ensures path == []
    {
      path := [];
    }

    method MoveTo(p: Point)
      modifies this
      ensures path == Draw(old(path), PathCommand.MoveTo(p))
    {
      if FinitePoint(p) {
        path := path + [PathCommand.MoveTo(p)];
      }
    }

    method LineTo(p: Point)
      modifies this
      ensures path == Draw(old(path), PathCommand.LineTo(p))
    {
      if FinitePoint(p) {
        if path == [] {
          path := [PathCommand.MoveTo(p)];
        } else {
          path := path + [PathCommand.LineTo(p)];
        }
      }
    }
  }

  /** One pass of the loop: the closed outline of the triangle at slots i, i + 1
      and i + 2 is drawn onto the path. */
  method Outline(ctx: PathContext, uvs: seq<real>, index: seq<nat>, i: nat, w: real, h: real)
    modifies ctx
    ensures ctx.path == Drawn(old(ctx.path), TriangleCommands(uvs, index, i, w, h))
  {
    ghost var tri := TriangleCommands(uvs, index, i, w, h);
    ghost var before := ctx.path;
    assert tri[..0] == [];
    ctx.MoveTo(Corner(uvs, index, i, w, h));
    DrawnStep(before, tri, 0);
    ctx.LineTo(Corner(uvs, index, i + 1, w, h));
    DrawnStep(before, tri, 1);
    ctx.LineTo(Corner(uvs, index, i + 2, w, h));
    DrawnStep(before, tri, 2);
    ctx.LineTo(Corner(uvs, index, i, w, h));
    DrawnStep(before, tri, 3);
    assert tri[..4] == tri;
  }

  /** The loop of loadGLB: steps i by 3 through the index array and draws one
      outline per pass onto what the path already holds. */
  method Trace(ctx: PathContext, uvs: seq<real>, index: seq<nat>, w: real, h: real)
    modifies ctx
    ensures ctx.path == Drawn(old(ctx.path), Guide(uvs, index, w, h))
  {
    var i := 0;
    ghost var t := 0;
    ghost var start := ctx.path;
    while i < |index|
      invariant i == 3 * t && i <= |index| + 2
      invariant ctx.path == Drawn(start, GuidePrefix(uvs, index, t, w, h))
    {
      ghost var done := GuidePrefix(uvs, index, t, w, h);
      ghost var tri := TriangleCommands(uvs, index, i, w, h);
      assert GuidePrefix(uvs, index, t + 1, w, h) == done + tri;
      DrawnAppend(start, done, tri);
      Outline(ctx, uvs, index, i, w, h);
      i := i + 3;
      t := t + 1;
    }
    assert t == Passes(|index|);
  }
}
