/** The froxel visualizer (`FroxelVisualizer`): a debug line mesh showing the camera frustum
    cut into depth slices. The float geometry (exponential slice depth, frustum corners, the
    camera transform) is kept symbolic: a vertex records which corner of which slice, under
    which camera, it is the image of. What is modelled is the integer loop structure: which
    slices are visited, how many vertices each loop appends and how they pair into lines. */
module Froxel {
  import opened Common

  /** A camera node, standing for its pose and field of view at the time of an update. */
  datatype Camera = Camera(id: nat)

  /** The float value `(float)num / (float)den`, kept symbolic. */
  datatype Ratio = Ratio(num: int, den: int)

  const Zero: Ratio := Ratio(0, 1)
  const One: Ratio := Ratio(1, 1)

  /** The world-space image, under `camera`'s transform, of `frustum_corner(depth, u, v)`
      where `depth` is `get_depth_at_slice` at the fraction `t` of the depth range. */
  datatype Vertex = Corner(camera: Camera, t: Ratio, u: Ratio, v: Ratio)

  datatype Primitive =
    PrimitivePoints | PrimitiveLines | PrimitiveLineStrip | PrimitiveTriangles | PrimitiveTriangleStrip

  datatype Surface = Surface(primitive: Primitive, vertices: seq<Vertex>)

  /** Godot's `ImmediateMesh`: committed surfaces, and the surface being built, if one is open. */
  class ImmediateMesh {
    var surfaces: seq<Surface>
    var open: bool
    var primitive: Primitive
    var pending: seq<Vertex>

    constructor ()
      ensures surfaces == [] && !open && pending == []
    {
      surfaces, open, primitive, pending := [], false, PrimitivePoints, [];
    }

    /** Drops every surface, and the one being built. */
    method ClearSurfaces()
      modifies this
      ensures surfaces == [] && !open && pending == []
    {
      surfaces, open, pending := [], false, [];
    }

    /** Opens a new surface; refused while one is open. */
    method SurfaceBegin(p: Primitive)
      modifies this
      ensures old(open) ==> unchanged(this)
      ensures !old(open) ==> open && primitive == p && pending == [] && surfaces == old(surfaces)
    {
      if !open {
        open, primitive, pending := true, p, [];
      }
    }

    /** Appends a vertex to the open surface; ignored when none is open. */
    method SurfaceAddVertex(v: Vertex)
      modifies this`pending
      ensures pending == if open then old(pending) + [v] else old(pending)
    {
      if open {
        pending := pending + [v];
      }
    }

    /** Commits the open surface; ignored when none is open, and refused, leaving the
        surface open, when no vertex was added. */
    method SurfaceEnd()
      modifies this
      ensures old(open) && old(pending) != [] ==>
        surfaces == old(surfaces) + [Surface(old(primitive), old(pending))] && !open && pending == []
      ensures !old(open) || old(pending) == [] ==> unchanged(this)
    {
      if open && pending != [] {
        surfaces, open, pending := surfaces + [Surface(primitive, pending)], false, [];
      }
    }
  }

  /** The number of iterations of `for (int i = 0; i <= n; i++)`. */
  function Iterations(n: int): nat {
    if n >= 0 then n + 1 else 0
  }

  /** The step of the depth-slice loops, `froxel_count_z / 8`. */
  function Step(countZ: int): int {
    TruncDiv(countZ, 8)
  }

  /** `for (int z = 0; z <= countZ; z += countZ / 8)` terminates. A negative count fails the
      guard at once; from 0 to 7 the step is 0, so `z` stays 0 and the guard stays true. */
  predicate ZLoopTerminates(countZ: int)
    ensures ZLoopTerminates(countZ) <==> countZ < 0 || Step(countZ) > 0
  {
    countZ < 0 || 8 <= countZ
  }

  /** The values `z` takes in `for (; z <= countZ; z += step)`. */
  function SlicesFrom(z: int, step: int, countZ: int): seq<int>
    requires step > 0 || z > countZ
    decreases countZ - z
  {
    if z > countZ then [] else [z] + SlicesFrom(z + step, step, countZ)
  }

  /** The depth slices both loops of `update_visualization` visit. */
  function Slices(countZ: int): seq<int>
    requires ZLoopTerminates(countZ)
  {
    SlicesFrom(0, Step(countZ), countZ)
  }

  lemma {:induction false} SlicesFromShape(z: int, step: int, countZ: int)
    requires step > 0
    ensures z > countZ ==> SlicesFrom(z, step, countZ) == []
    ensures z <= countZ ==> |SlicesFrom(z, step, countZ)| == (countZ - z) / step + 1
    ensures forall i :: 0 <= i < |SlicesFrom(z, step, countZ)| ==>
      SlicesFrom(z, step, countZ)[i] == z + i * step <= countZ
    decreases countZ - z
  {
    if z <= countZ {
      var rest := SlicesFrom(z + step, step, countZ);
      SlicesFromShape(z + step, step, countZ);
      if z + step <= countZ {
        DivMinusDivisor(countZ - z, step);
      }
      forall i | 0 < i < |SlicesFrom(z, step, countZ)|
        ensures SlicesFrom(z, step, countZ)[i] == z + i * step
      {
        assert SlicesFrom(z, step, countZ)[i] == rest[i - 1];
        assert (i - 1) * step + step == i * step;
      }
    }
  }

  /** Division is determined by quotient and remainder. */
  lemma DivUnique(a: int, b: int, q: int, r: int)
    requires b > 0 && 0 <= r < b && a == q * b + r
    ensures a / b == q && a % b == r
  {
    var q', r' := a / b, a % b;
    assert (q - q') * b == r' - r;
    if q > q' {
      MulAtLeast(q - q', b);
    } else if q < q' {
      MulAtLeast(q' - q, b);
    }
  }

  lemma MulAtLeast(x: int, b: int)
    requires x >= 1 && b > 0
    ensures x * b >= b
  {
    assert x * b - b == (x - 1) * b;
  }

  lemma MulCancelLess(x: int, y: int, s: int)
    requires s > 0 && x * s < y * s
    ensures x < y
  {
    assert y * s - x * s == (y - x) * s;
  }

  lemma DivMinusDivisor(a: int, b: int)
    requires 0 < b <= a
    ensures (a - b) / b + 1 == a / b
  {
    assert a - b == (a / b - 1) * b + a % b;
    DivUnique(a - b, b, a / b - 1, a % b);
  }

  /** With `countZ >= 8` the loops visit `0, s, 2s, ...` up to `countZ`, `s = countZ / 8`:
      `countZ / s + 1` slices, between 9 and 16 of them. A negative count visits none. */
  lemma SliceCount(countZ: int)
    requires ZLoopTerminates(countZ)
    ensures countZ < 0 ==> Slices(countZ) == []
    ensures countZ >= 8 ==> |Slices(countZ)| == countZ / Step(countZ) + 1
    ensures countZ >= 8 ==> 9 <= |Slices(countZ)| <= 16
    ensures forall i :: 0 <= i < |Slices(countZ)| ==> Slices(countZ)[i] == i * Step(countZ) <= countZ
  {
    if countZ >= 8 {
      var s := Step(countZ);
      SlicesFromShape(0, s, countZ);
      var q := countZ / s;
      assert 8 * s <= countZ < 8 * s + 8;
      assert q * s <= countZ < (q + 1) * s;
      MulCancelLess(8, q + 1, s);
      assert 8 * s + 8 <= 16 * s;
      MulCancelLess(q, 16, s);
    }
  }

  /** The far plane (slice `countZ`) is drawn exactly when the step divides `countZ`. */
  lemma FarSliceVisited(countZ: int)
    requires countZ >= 8
    ensures countZ in Slices(countZ) <==> countZ % Step(countZ) == 0
  {
    var s := Step(countZ);
    var zs := Slices(countZ);
    SliceCount(countZ);
    if countZ % s == 0 {
      var q := countZ / s;
      assert zs[q] == q * s == countZ;
    }
    if countZ in zs {
      var i :| 0 <= i < |zs| && zs[i] == countZ;
      DivUnique(countZ, s, i, 0);
    }
  }

  /** The `k`-th line of a line-primitive vertex list: vertices `2k` and `2k+1`. */
  function Segment(s: seq<Vertex>, k: int): (Vertex, Vertex)
    requires 0 <= k && 2 * k + 1 < |s|
  {
    (s[2 * k], s[2 * k + 1])
  }

  /** The first `n` vertical lines of one slice: at `u = x / countX`, from `v = 0` to `v = 1`. */
  function Columns(camera: Camera, t: Ratio, countX: int, n: nat): (vs: seq<Vertex>)
    ensures |vs| == 2 * n
    ensures forall k :: 0 <= k < n ==>
      Segment(vs, k) == (Corner(camera, t, Ratio(k, countX), Zero), Corner(camera, t, Ratio(k, countX), One))
  {
    if n == 0 then []
    else
      var init := Columns(camera, t, countX, n - 1);
      var vs := init + [Corner(camera, t, Ratio(n - 1, countX), Zero), Corner(camera, t, Ratio(n - 1, countX), One)];
      assert forall k :: 0 <= k < n - 1 ==> Segment(vs, k) == Segment(init, k);
      vs
  }

  /** The first `n` horizontal lines of one slice: at `v = y / countY`, from `u = 0` to `u = 1`. */
  function Rows(camera: Camera, t: Ratio, countY: int, n: nat): (vs: seq<Vertex>)
    ensures |vs| == 2 * n
    ensures forall k :: 0 <= k < n ==>
      Segment(vs, k) == (Corner(camera, t, Zero, Ratio(k, countY)), Corner(camera, t, One, Ratio(k, countY)))
  {
    if n == 0 then []
    else
      var init := Rows(camera, t, countY, n - 1);
      var vs := init + [Corner(camera, t, Zero, Ratio(n - 1, countY)), Corner(camera, t, One, Ratio(n - 1, countY))];
      assert forall k :: 0 <= k < n - 1 ==> Segment(vs, k) == Segment(init, k);
      vs
  }

  /** The number of vertices the grid loop appends per slice. */
  function PerSlice(countX: int, countY: int): nat {
    2 * Iterations(countX) + 2 * Iterations(countY)
  }

  /** The grid lines of the slice at `t`. */
  function GridSlice(camera: Camera, t: Ratio, countX: int, countY: int): (vs: seq<Vertex>)
    ensures |vs| == PerSlice(countX, countY)
    ensures countX >= -1 && countY >= -1 ==> |vs| == 2 * (countX + 1) + 2 * (countY + 1)
  {
    Columns(camera, t, countX, Iterations(countX)) + Rows(camera, t, countY, Iterations(countY))
  }

  /** The grid lines of every slice in `zs`, in order. */
  function Grid(camera: Camera, zs: seq<int>, countX: int, countY: int, countZ: int): (vs: seq<Vertex>)
    ensures |vs| == |zs| * PerSlice(countX, countY)
  {
    if zs == [] then []
    else
      var n := |zs|;
      var init := Grid(camera, zs[..n - 1], countX, countY, countZ);
      assert |init| == (n - 1) * PerSlice(countX, countY);
      init + GridSlice(camera, Ratio(zs[n - 1], countZ), countX, countY)
  }

  /** The four corners of the slice at `t`, in the order top-left, top-right, bottom-right,
      bottom-left. */
  function Quad(camera: Camera, t: Ratio): seq<Vertex> {
    [Corner(camera, t, Zero, Zero), Corner(camera, t, One, Zero),
     Corner(camera, t, One, One), Corner(camera, t, Zero, One)]
  }

  /** The first `n` edges of a quad: corner `i` to corner `(i + 1) % 4`. */
  function QuadEdges(corners: seq<Vertex>, n: nat): (vs: seq<Vertex>)
    requires |corners| == 4 && n <= 4
    ensures |vs| == 2 * n
    ensures forall i :: 0 <= i < n ==> Segment(vs, i) == (corners[i], corners[(i + 1) % 4])
  {
    if n == 0 then []
    else
      var init := QuadEdges(corners, n - 1);
      var vs := init + [corners[n - 1], corners[n % 4]];
      assert forall i :: 0 <= i < n - 1 ==> Segment(vs, i) == Segment(init, i);
      vs
  }

  /** The outline of one slice closes: each edge ends where the next one starts, the last
      one where the first starts, and the four symbolic corners are distinct terms (the
      points they stand for may coincide, e.g. when there is no viewport). */
  lemma {:induction false} QuadOutlineCloses(camera: Camera, t: Ratio)
    ensures var vs := QuadEdges(Quad(camera, t), 4);
      |vs| == 8 && forall i :: 0 <= i < 4 ==> Segment(vs, i).1 == Segment(vs, (i + 1) % 4).0
    ensures forall i, j :: 0 <= i < j < 4 ==> Quad(camera, t)[i] != Quad(camera, t)[j]
  {
    var vs := QuadEdges(Quad(camera, t), 4);
    forall i | 0 <= i < 4
      ensures Segment(vs, i).1 == Segment(vs, (i + 1) % 4).0
    {
      assert Segment(vs, i) == (Quad(camera, t)[i], Quad(camera, t)[(i + 1) % 4]);
      assert Segment(vs, (i + 1) % 4).0 == Quad(camera, t)[(i + 1) % 4];
    }
  }

  /** The slice outlines of every slice in `zs`, in order. */
  function Edges(camera: Camera, zs: seq<int>, countZ: int): (vs: seq<Vertex>)
    ensures |vs| == 8 * |zs|
  {
    if zs == [] then []
    else
      var n := |zs|;
      Edges(camera, zs[..n - 1], countZ) + QuadEdges(Quad(camera, Ratio(zs[n - 1], countZ)), 4)
  }

  /** One more iteration of a depth-slice loop moves slice `z` from the remaining slices
      to the visited ones. */
  lemma SlicesAdvance(done: seq<int>, z: int, step: int, countZ: int)
    requires step > 0 && z <= countZ
    ensures done + SlicesFrom(z, step, countZ) == (done + [z]) + SlicesFrom(z + step, step, countZ)
  {
    assert SlicesFrom(z, step, countZ) == [z] + SlicesFrom(z + step, step, countZ);
  }

  lemma GridSnoc(camera: Camera, zs: seq<int>, z: int, countX: int, countY: int, countZ: int)
    ensures Grid(camera, zs + [z], countX, countY, countZ)
      == Grid(camera, zs, countX, countY, countZ) + GridSlice(camera, Ratio(z, countZ), countX, countY)
  {
    assert (zs + [z])[..|zs|] == zs;
  }

  lemma EdgesSnoc(camera: Camera, zs: seq<int>, z: int, countZ: int)
    ensures Edges(camera, zs + [z], countZ) == Edges(camera, zs, countZ) + QuadEdges(Quad(camera, Ratio(z, countZ)), 4)
  {
    assert (zs + [z])[..|zs|] == zs;
  }

  /** The whole vertex list of one update: grid lines, then slice outlines. */
  function Emitted(camera: Camera, countX: int, countY: int, countZ: int): seq<Vertex>
    requires ZLoopTerminates(countZ)
  {
    var zs := Slices(countZ);
    Grid(camera, zs, countX, countY, countZ) + Edges(camera, zs, countZ)
  }

  /** Every line of a vertex list joins two points of one slice. */
  ghost predicate LinesWithinSlices(vs: seq<Vertex>) {
    |vs| % 2 == 0 && forall k :: 0 <= k < |vs| / 2 ==> Segment(vs, k).0.t == Segment(vs, k).1.t
  }

  lemma LinesWithinSlicesConcat(a: seq<Vertex>, b: seq<Vertex>)
    requires LinesWithinSlices(a) && LinesWithinSlices(b)
    ensures LinesWithinSlices(a + b)
  {
    var h := |a| / 2;
    forall k | 0 <= k < |a + b| / 2
      ensures Segment(a + b, k).0.t == Segment(a + b, k).1.t
    {
      if k < h {
        assert Segment(a + b, k) == Segment(a, k);
      } else {
        assert Segment(a + b, k) == Segment(b, k - h);
      }
    }
  }

  lemma {:induction false} GridWithinSlices(camera: Camera, zs: seq<int>, countX: int, countY: int, countZ: int)
    ensures LinesWithinSlices(Grid(camera, zs, countX, countY, countZ))
  {
    if zs != [] {
      var n := |zs|;
      GridWithinSlices(camera, zs[..n - 1], countX, countY, countZ);
      var t := Ratio(zs[n - 1], countZ);
      var cs := Columns(camera, t, countX, Iterations(countX));
      var rs := Rows(camera, t, countY, Iterations(countY));
      assert LinesWithinSlices(cs) by {
        forall k | 0 <= k < |cs| / 2 ensures Segment(cs, k).0.t == Segment(cs, k).1.t {
        }
      }
      assert LinesWithinSlices(rs) by {
        forall k | 0 <= k < |rs| / 2 ensures Segment(rs, k).0.t == Segment(rs, k).1.t {
        }
      }
      LinesWithinSlicesConcat(cs, rs);
      LinesWithinSlicesConcat(Grid(camera, zs[..n - 1], countX, countY, countZ), cs + rs);
    }
  }

  lemma {:induction false} EdgesWithinSlices(camera: Camera, zs: seq<int>, countZ: int)
    ensures LinesWithinSlices(Edges(camera, zs, countZ))
  {
    if zs != [] {
      var n := |zs|;
      EdgesWithinSlices(camera, zs[..n - 1], countZ);
      var qs := QuadEdges(Quad(camera, Ratio(zs[n - 1], countZ)), 4);
      assert LinesWithinSlices(qs) by {
        forall k | 0 <= k < 4 ensures Segment(qs, k).0.t == Segment(qs, k).1.t {
        }
      }
      LinesWithinSlicesConcat(Edges(camera, zs[..n - 1], countZ), qs);
    }
  }

  /** One update emits `|Slices| * (PerSlice + 8)` vertices, an even number, and pairs them
      into lines that each stay within one slice. */
  lemma EmittedShape(camera: Camera, countX: int, countY: int, countZ: int)
    requires ZLoopTerminates(countZ)
    ensures var vs := Emitted(camera, countX, countY, countZ);
      |vs| == |Slices(countZ)| * (PerSlice(countX, countY) + 8)
      && |vs| % 2 == 0 && LinesWithinSlices(vs)
  {
    var zs := Slices(countZ);
    GridWithinSlices(camera, zs, countX, countY, countZ);
    EdgesWithinSlices(camera, zs, countZ);
    LinesWithinSlicesConcat(Grid(camera, zs, countX, countY, countZ), Edges(camera, zs, countZ));
  }

  /** An update with the grid shown emits nothing exactly when no slice is visited, that is
      when `countZ` is negative. */
  lemma EmittedEmpty(camera: Camera, countX: int, countY: int, countZ: int)
    requires ZLoopTerminates(countZ)
    ensures Emitted(camera, countX, countY, countZ) == [] <==> countZ < 0
  {
    SliceCount(countZ);
    EmittedShape(camera, countX, countY, countZ);
    if countZ >= 8 {
      MulAtLeast(|Slices(countZ)|, PerSlice(countX, countY) + 8);
    }
  }

  class FroxelVisualizer {
    var mesh: ImmediateMesh?
    var camera: Option<Camera>
    var countX: int
    var countY: int
    var countZ: int
    var showGrid: bool

    constructor ()
      ensures mesh == null && camera == None && showGrid
      ensures countX == 16 && countY == 9 && countZ == 48
    {
      mesh, camera := null, None;
      countX, countY, countZ := 16, 9, 48;
      showGrid := true;
    }

    /** An update would draw: there is a camera, a mesh, and the grid is shown. */
    predicate Active()
      reads this
    {
      camera.Some? && mesh != null && showGrid
    }

    /** The mesh shows what the last update left: nothing when the grid is hidden; else one
        line surface holding `Emitted` or, when no slice is visited and so nothing is emitted,
        no surface and an empty line surface left open. (No camera or no mesh: no claim.) */
    ghost predicate Shown()
      reads this, mesh
      requires Active() ==> ZLoopTerminates(countZ)
    {
      mesh != null && camera.Some? ==>
        mesh.pending == []
        && if !showGrid then mesh.surfaces == [] && !mesh.open
           else
             var vs := Emitted(camera.value, countX, countY, countZ);
             if vs == [] then mesh.surfaces == [] && mesh.open && mesh.primitive == PrimitiveLines
             else mesh.surfaces == [Surface(PrimitiveLines, vs)] && !mesh.open
    }

    /** The mesh part of `_ready`: a fresh, empty mesh. */
    method Ready()
      modifies this`mesh
      ensures fresh(mesh) && mesh.surfaces == [] && !mesh.open && mesh.pending == []
    {
      mesh := new ImmediateMesh();
    }

    method SetCamera(cam: Option<Camera>)
      requires cam.Some? && mesh != null && showGrid ==> ZLoopTerminates(countZ)
      modifies this`camera, mesh
      ensures camera == cam && Shown()
      ensures cam.None? && mesh != null ==> unchanged(mesh)
    {
      camera := cam;
      UpdateVisualization();
    }

    method SetFroxelCount(x: int, y: int, z: int)
      requires camera.Some? && mesh != null && showGrid ==> ZLoopTerminates(z)
      modifies this`countX, this`countY, this`countZ, mesh
      ensures countX == x && countY == y && countZ == z && Shown()
      ensures camera.None? && mesh != null ==> unchanged(mesh)
    {
      countX, countY, countZ := x, y, z;
      UpdateVisualization();
    }

    method SetShowGrid(enabled: bool)
      requires camera.Some? && mesh != null && enabled ==> ZLoopTerminates(countZ)
      modifies this`showGrid, mesh
      ensures showGrid == enabled && Shown()
      ensures camera.None? && mesh != null ==> unchanged(mesh)
    {
      showGrid := enabled;
      UpdateVisualization();
    }

    /** Rebuilds the mesh: without a camera or a mesh it returns untouched; with the grid
        hidden it clears the mesh; otherwise it clears it and emits one line surface holding
        the grid lines of every slice, then the outline of every slice. */
    method UpdateVisualization()
      requires Active() ==> ZLoopTerminates(countZ)
      modifies mesh
      ensures Shown()
      ensures camera.None? && mesh != null ==> unchanged(mesh)
    {
      if camera.None? {
        return;
      }
      if mesh == null {
        return;
      }
      if !showGrid {
        mesh.ClearSurfaces();
        return;
      }
      var m, cam := mesh, camera.value;
      m.ClearSurfaces();
      m.SurfaceBegin(PrimitiveLines);
      EmitGrid(m, cam);
      EmitOutlines(m, cam);
      assert m.pending == Emitted(cam, countX, countY, countZ);
      m.SurfaceEnd();
    }

    /** The first depth-slice loop: the grid lines of every visited slice. */
    method EmitGrid(m: ImmediateMesh, cam: Camera)
      requires m.open && ZLoopTerminates(countZ)
      modifies m`pending
      ensures m.pending == old(m.pending) + Grid(cam, Slices(countZ), countX, countY, countZ)
    {
      var step := Step(countZ);
      ghost var done: seq<int> := [];
      var z := 0;
      while z <= countZ
        invariant step > 0 || z > countZ
        invariant done + SlicesFrom(z, step, countZ) == Slices(countZ)
        invariant m.pending == old(m.pending) + Grid(cam, done, countX, countY, countZ)
        decreases countZ - z
      {
        EmitSliceGrid(m, cam, z);
        SlicesAdvance(done, z, step, countZ);
        GridSnoc(cam, done, z, countX, countY, countZ);
        done := done + [z];
        z := z + step;
      }
      assert done == Slices(countZ);
    }

    /** One iteration of the first depth-slice loop: a vertical line per `x` in
        `0..countX`, then a horizontal line per `y` in `0..countY`. */
    method EmitSliceGrid(m: ImmediateMesh, cam: Camera, z: int)
      requires m.open
      modifies m`pending
      ensures m.pending == old(m.pending) + GridSlice(cam, Ratio(z, countZ), countX, countY)
    {
      var t := Ratio(z, countZ);
      EmitColumns(m, cam, t, countX);
      EmitRows(m, cam, t, countY);
    }

    /** The `x` loop: a vertical line at `u = x / countX` for each `x` in `0..countX`. */
    static method EmitColumns(m: ImmediateMesh, cam: Camera, t: Ratio, countX: int)
      requires m.open
      modifies m`pending
      ensures m.pending == old(m.pending) + Columns(cam, t, countX, Iterations(countX))
    {
      var x := 0;
      while x <= countX
        invariant 0 <= x <= Iterations(countX)
        invariant m.pending == old(m.pending) + Columns(cam, t, countX, x)
      {
        var top, bottom := Corner(cam, t, Ratio(x, countX), Zero), Corner(cam, t, Ratio(x, countX), One);
        m.SurfaceAddVertex(top);
        m.SurfaceAddVertex(bottom);
        assert Columns(cam, t, countX, x + 1) == Columns(cam, t, countX, x) + [top, bottom];
        x := x + 1;
      }
    }

    /** The `y` loop: a horizontal line at `v = y / countY` for each `y` in `0..countY`. */
    static method EmitRows(m: ImmediateMesh, cam: Camera, t: Ratio, countY: int)
      requires m.open
      modifies m`pending
      ensures m.pending == old(m.pending) + Rows(cam, t, countY, Iterations(countY))
    {
      var y := 0;
      while y <= countY
        invariant 0 <= y <= Iterations(countY)
        invariant m.pending == old(m.pending) + Rows(cam, t, countY, y)
      {
        var left, right := Corner(cam, t, Zero, Ratio(y, countY)), Corner(cam, t, One, Ratio(y, countY));
        m.SurfaceAddVertex(left);
        m.SurfaceAddVertex(right);
        assert Rows(cam, t, countY, y + 1) == Rows(cam, t, countY, y) + [left, right];
        y := y + 1;
      }
    }

    /** The second depth-slice loop: the outline of every visited slice. */
    method EmitOutlines(m: ImmediateMesh, cam: Camera)
      requires m.open && ZLoopTerminates(countZ)
      modifies m`pending
      ensures m.pending == old(m.pending) + Edges(cam, Slices(countZ), countZ)
    {
      var step := Step(countZ);
      ghost var done: seq<int> := [];
      var z := 0;
      while z <= countZ
        invariant step > 0 || z > countZ
        invariant done + SlicesFrom(z, step, countZ) == Slices(countZ)
        invariant m.pending == old(m.pending) + Edges(cam, done, countZ)
        decreases countZ - z
      {
        EmitQuad(m, Quad(cam, Ratio(z, countZ)));
        SlicesAdvance(done, z, step, countZ);
        EdgesSnoc(cam, done, z, countZ);
        done := done + [z];
        z := z + step;
      }
      assert done == Slices(countZ);
    }

    /** The `i` loop: the four edges of one slice's outline, corner `i` to corner `(i + 1) % 4`. */
    static method EmitQuad(m: ImmediateMesh, corners: seq<Vertex>)
      requires m.open && |corners| == 4
      modifies m`pending
      ensures m.pending == old(m.pending) + QuadEdges(corners, 4)
    {
      var i := 0;
      while i < 4
        invariant 0 <= i <= 4
        invariant m.pending == old(m.pending) + QuadEdges(corners, i)
      {
        m.SurfaceAddVertex(corners[i]);
        m.SurfaceAddVertex(corners[(i + 1) % 4]);
        i := i + 1;
      }
    }
  }
}
