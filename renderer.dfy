/** The terrain state of RandomlyGenerated/final.cpp (the globals `planeVertices`,
    `vertices` and `showLines`), the routine that fills `vertices`, the `R` and `F`
    keys, and the per-triangle colour choice of the display loop. */
module Renderer {
  import opened HeightField
  import opened MeshBuilder

  /** The two uniform colours: `vec3(0, 0.8, 0)` and `vec3(0, 0, 0.8)`. */
  datatype Colour = Green | Blue

  /** The colour of a triangle: green when the mean height of its corners is at least 0. */
  function TriangleColour(a: Vertex, b: Vertex, c: Vertex): (colour: Colour)
    ensures colour == Green <==> a.y + b.y + c.y >= 0.0
  {
    var avgHeight := (a.y + b.y + c.y) / 3.0;
    if avgHeight >= 0.0 then Green else Blue
  }

  /** The colour of triangle t (rows 3t, 3t+1, 3t+2) of the mesh of g. */
  function MeshTriangleColour(g: seq<seq<real>>, n: nat, t: nat): Colour
    requires IsGrid(g, n) && t < 2 * (n * n)
  {
    var m := Mesh(g, n);
    TriangleColour(m[3 * t], m[3 * t + 1], m[3 * t + 2])
  }

  /** The two triangles of cell (x, z) are triangles `2 (z n + x)` and `2 (z n + x) + 1`
      of the mesh; the first is coloured by corners (0,0), (0,1), (1,1) of the cell,
      the second by corners (1,1), (0,0), (1,0). */
  lemma CellColours(g: seq<seq<real>>, n: nat, x: nat, z: nat)
    requires IsGrid(g, n) && x < n && z < n
    ensures 2 * CellIndex(n, x, z) + 1 < 2 * (n * n)
    ensures (MeshTriangleColour(g, n, 2 * CellIndex(n, x, z)) == Green) <==>
              g[x][z] + g[x][z + 1] + g[x + 1][z + 1] >= 0.0
    ensures (MeshTriangleColour(g, n, 2 * CellIndex(n, x, z) + 1) == Green) <==>
              g[x + 1][z + 1] + g[x][z] + g[x + 1][z] >= 0.0
  {
    TrianglesOfCell(g, n, x, z);
    RunOffsets(g, n, x, z);
    var run := CellRun(g, n, x, z);
    assert run[0].y == g[x][z] && run[1].y == g[x][z + 1] && run[2].y == g[x + 1][z + 1];
    assert run[3].y == g[x + 1][z + 1] && run[4].y == g[x][z] && run[5].y == g[x + 1][z];
  }

  /** Triangles `2 (z n + x)` and `2 (z n + x) + 1` of the mesh are the two halves of
      the run of cell (x, z). */
  lemma TrianglesOfCell(g: seq<seq<real>>, n: nat, x: nat, z: nat)
    requires IsGrid(g, n) && x < n && z < n
    ensures 2 * CellIndex(n, x, z) + 1 < 2 * (n * n)
    ensures var run := CellRun(g, n, x, z);
      MeshTriangleColour(g, n, 2 * CellIndex(n, x, z)) == TriangleColour(run[0], run[1], run[2]) &&
      MeshTriangleColour(g, n, 2 * CellIndex(n, x, z) + 1) == TriangleColour(run[3], run[4], run[5])
  {
    var run := CellRun(g, n, x, z);
    var c := CellIndex(n, x, z);
    forall j | 0 <= j < 6
      ensures Mesh(g, n)[6 * c + j] == run[j]
    {
      MeshAt(g, n, x, z, j);
    }
    RunColours(Mesh(g, n), run, c);
  }

  /** A six-vertex run starting at row 6c holds triangles 2c and 2c + 1. */
  lemma RunColours(m: seq<Vertex>, run: seq<Vertex>, c: nat)
    requires |run| == 6 && 6 * c + 6 <= |m|
    requires forall j :: 0 <= j < 6 ==> m[6 * c + j] == run[j]
    ensures TriangleColour(m[3 * (2 * c)], m[3 * (2 * c) + 1], m[3 * (2 * c) + 2]) ==
              TriangleColour(run[0], run[1], run[2])
    ensures TriangleColour(m[3 * (2 * c + 1)], m[3 * (2 * c + 1) + 1], m[3 * (2 * c + 1) + 2]) ==
              TriangleColour(run[3], run[4], run[5])
  {
    assert m[6 * c] == run[0] && m[6 * c + 1] == run[1] && m[6 * c + 2] == run[2];
    assert m[6 * c + 3] == run[3] && m[6 * c + 4] == run[4] && m[6 * c + 5] == run[5];
  }

  /** `numVertices`: the vertex array has `18 n^2` rows, three times the `6 n^2` the mesh fills. */
  function NumVertices(n: nat): nat
  {
    (n * n) * 18
  }

  /** The value of a row of `vertices` that nothing has written (static storage is zeroed). */
  const Origin := Vertex(0.0, 0.0, 0.0)

  /** One iteration of the display loop: the triangle drawn from row `first`, its
      colour, and whether its outline is drawn too. */
  datatype TriangleDraw = TriangleDraw(first: nat, colour: Colour, outlined: bool)

  /** The keys and actions `key_callback` distinguishes. */
  datatype Key = KeyR | KeyF | OtherKey
  datatype Action = Press | Release | Repeat

  class Scene {
    /** `planeSize` */
    const N: nat
    /** `planeVertices`: the current height grid. */
    var planeVertices: seq<seq<real>>
    /** The `rand()` results the current grid was generated from. */
    ghost var draws: seq<nat>
    /** `vertices`: the vertex array handed to the graphics buffer. */
    var vertices: array<Vertex>
    /** `showLines`: whether triangle outlines are drawn. */
    var showLines: bool

    /** The shapes of the grid and of the vertex array; rows past the mesh stay zero. */
    ghost predicate Valid()
      reads this, vertices
    {
      N >= 1 && IsGrid(planeVertices, N) &&
      vertices.Length == NumVertices(N) &&
      forall k :: 6 * (N * N) <= k < vertices.Length ==> vertices[k] == Origin
    }

    /** The grid is the generator's output for the draws it was made from. */
    ghost predicate Generated()
      reads this
    {
      |draws| >= (N + 1) * (N + 1) && planeVertices == HeightGrid(draws, N)
    }

    /** The first `6 N^2` rows of `vertices` are the mesh of the current grid. */
    ghost predicate MeshBuilt()
      reads this, vertices
      requires Valid()
    {
      forall k :: 0 <= k < 6 * (N * N) ==> vertices[k] == Mesh(planeVertices, N)[k]
    }

    /** Program start: `planeVertices = findVertices(planeSize)` with the vertex array
        zeroed and outlines on, then `init` calls `setupVertices`. */
    constructor (n: nat, rs: seq<nat>)
      requires n >= 1 && |rs| >= (n + 1) * (n + 1)
      ensures Valid() && Generated() && MeshBuilt() && fresh(vertices)
      ensures N == n && draws == rs && planeVertices == HeightGrid(rs, n) && showLines
    {
      N := n;
      var g;
      ghost var writes;
      g, writes := FindVertices(n, rs);
      planeVertices := g;
      draws := rs;
      vertices := new Vertex[NumVertices(n)](_ => Origin);
      showLines := true;
      new;
      SetupVertices();
    }

    /** `setupVertices`: for each z, for each x, writes the six-vertex run of cell
        (x, z) at the cursor `6 (z N + x)`; rows from `6 N^2` on are left as they were. */
    method SetupVertices()
      requires Valid()
      modifies vertices
      ensures Valid() && MeshBuilt()
      ensures vertices[6 * (N * N)..] == old(vertices[6 * (N * N)..])
    {
      MeshArithmetic(N);
      ghost var mesh := Mesh(planeVertices, N);
      var currX := 0;
      var currLocation := 0;
      var currZ := 0;
      while currZ < N
        invariant 0 <= currZ <= N && currX == 0
        invariant currLocation == 6 * (currZ * N) && currLocation <= |mesh|
        invariant forall k :: 0 <= k < currLocation ==> vertices[k] == mesh[k]
        invariant forall k :: |mesh| <= k < vertices.Length ==> vertices[k] == old(vertices[k])
      {
        CursorStep(N, currZ);
        while currX < N
          invariant 0 <= currX <= N
          invariant currLocation == 6 * (currZ * N + currX) && currLocation <= |mesh|
          invariant forall k :: 0 <= k < currLocation ==> vertices[k] == mesh[k]
          invariant forall k :: |mesh| <= k < vertices.Length ==> vertices[k] == old(vertices[k])
        {
          currLocation := WriteCell(currX, currZ, currLocation);
          currX := currX + 1;
        }
        currX := 0;
        currZ := currZ + 1;
      }
      assert vertices[|mesh|..] == old(vertices[|mesh|..]);
    }

    /** One pass of the `for (i = 0; i < 5; i++)` loop of `setupVertices`: the five
        table steps of cell (currX, currZ), step 2 written twice, from row `start` on.
        It writes the cell's run of the mesh there and no other row. */
    method WriteCell(currX: nat, currZ: nat, start: nat) returns (currLocation: nat)
      requires IsGrid(planeVertices, N) && currX < N && currZ < N
      requires start == 6 * CellIndex(N, currX, currZ) && 6 * (N * N) <= vertices.Length
      modifies vertices
      ensures currLocation == start + 6 <= 6 * (N * N)
      ensures forall k :: 0 <= k < vertices.Length && (k < start || currLocation <= k) ==>
                vertices[k] == old(vertices[k])
      ensures forall k :: start <= k < currLocation ==> vertices[k] == Mesh(planeVertices, N)[k]
    {
      var g := planeVertices;
      ghost var mesh := Mesh(g, N);
      MeshSlot(g, N, currX, currZ, start, 4);
      currLocation := start;
      for i := 0 to 5
        invariant currLocation == start + SlotOf(i)
        invariant forall k :: 0 <= k < vertices.Length && (k < start || currLocation <= k) ==>
                    vertices[k] == old(vertices[k])
        invariant forall k :: start <= k < currLocation ==> vertices[k] == mesh[k]
      {
        MeshSlot(g, N, currX, currZ, start, i);
        var dx, dz := VertexRotations[i].0, VertexRotations[i].1;
        var vertex := Vertex((currX + dx - N / 2) as real,
                             g[currX + dx][currZ + dz],
                             (currZ + dz) as real - (N / 2) as real);
        vertices[currLocation] := vertex;
        currLocation := currLocation + 1;
        if i == 2 {
          vertices[currLocation] := vertex;
          currLocation := currLocation + 1;
        }
      }
    }

    /** The `R` key: a new grid from fresh draws, then the vertex array rebuilt from it. */
    method Regenerate(rs: seq<nat>)
      requires Valid() && |rs| >= (N + 1) * (N + 1)
      modifies this, vertices
      ensures Valid() && Generated() && MeshBuilt()
      ensures draws == rs && planeVertices == HeightGrid(rs, N)
      ensures vertices == old(vertices) && showLines == old(showLines)
    {
      var g;
      ghost var writes;
      g, writes := FindVertices(N, rs);
      planeVertices := g;
      draws := rs;
      SetupVertices();
    }

    /** The `F` key: flips `showLines`. */
    method ToggleLines()
      modifies this`showLines
      ensures showLines == !old(showLines)
    {
      if showLines {
        showLines := false;
      } else {
        showLines := true;
      }
    }

    /** `key_callback`: a press of R regenerates the terrain from the draws rs, a press
        of F toggles the outlines, anything else changes nothing. */
    method KeyCallback(key: Key, action: Action, rs: seq<nat>)
      requires Valid() && Generated() && MeshBuilt()
      requires key == KeyR && action == Press ==> |rs| >= (N + 1) * (N + 1)
      modifies this, vertices
      ensures Valid() && Generated() && MeshBuilt() && vertices == old(vertices)
      ensures key == KeyR && action == Press ==>
                draws == rs && planeVertices == HeightGrid(rs, N) && showLines == old(showLines)
      ensures key == KeyF && action == Press ==>
                planeVertices == old(planeVertices) && draws == old(draws) && showLines == !old(showLines)
      ensures action != Press || key == OtherKey ==>
                planeVertices == old(planeVertices) && draws == old(draws) && showLines == old(showLines)
      ensures key != KeyR || action != Press ==> unchanged(vertices)
    {
      if key == KeyR && action == Press {
        Regenerate(rs);
      } else if key == KeyF && action == Press {
        ToggleLines();
      }
    }

    /** The display loop as written: `for (i = 0; i <= 6 N^2; i += 3)`. It draws the
        `2 N^2` mesh triangles and then one more, from rows `6 N^2 .. 6 N^2 + 2`, which
        lie past the mesh and are never written, so that extra triangle is green and
        collapsed onto the origin. */
    method Display() returns (calls: seq<TriangleDraw>)
      requires Valid() && MeshBuilt()
      ensures |calls| == 2 * (N * N) + 1
      ensures forall t :: 0 <= t < 2 * (N * N) ==>
                calls[t] == TriangleDraw(3 * t, MeshTriangleColour(planeVertices, N, t), showLines)
      ensures calls[2 * (N * N)] == TriangleDraw(6 * (N * N), Green, showLines)
      ensures var last := 6 * (N * N);
                last == |Mesh(planeVertices, N)| && last + 2 < vertices.Length &&
                vertices[last] == vertices[last + 1] == vertices[last + 2] == Origin
    {
      MeshArithmetic(N);
      calls := [];
      var i := 0;
      while i <= (N * N) * 6
        invariant i == 3 * |calls| && i <= 6 * (N * N) + 3
        invariant forall t :: 0 <= t < |calls| && t < 2 * (N * N) ==>
                    calls[t] == TriangleDraw(3 * t, MeshTriangleColour(planeVertices, N, t), showLines)
        invariant |calls| > 2 * (N * N) ==> calls[2 * (N * N)] == TriangleDraw(6 * (N * N), Green, showLines)
      {
        if i < 6 * (N * N) {
          WholeTriangle(i, |calls|, 2 * (N * N));
          assert vertices[i] == Mesh(planeVertices, N)[i];
          assert vertices[i + 1] == Mesh(planeVertices, N)[i + 1];
          assert vertices[i + 2] == Mesh(planeVertices, N)[i + 2];
        }
        var avgHeight := (vertices[i].y + vertices[i + 1].y + vertices[i + 2].y) / 3.0;
        var colour := if avgHeight >= 0.0 then Green else Blue;
        calls := calls + [TriangleDraw(i, colour, showLines)];
        i := i + 3;
      }
    }

    /** The display loop with the bound the mesh size calls for, `i < 6 N^2`: exactly
        the `2 N^2` mesh triangles, in mesh order. */
    method DisplayMesh() returns (calls: seq<TriangleDraw>)
      requires Valid() && MeshBuilt()
      ensures |calls| == 2 * (N * N)
      ensures forall t :: 0 <= t < |calls| ==>
                calls[t] == TriangleDraw(3 * t, MeshTriangleColour(planeVertices, N, t), showLines)
    {
      MeshArithmetic(N);
      calls := [];
      var i := 0;
      while i < (N * N) * 6
        invariant i == 3 * |calls| && i <= 6 * (N * N)
        invariant forall t :: 0 <= t < |calls| ==>
                    calls[t] == TriangleDraw(3 * t, MeshTriangleColour(planeVertices, N, t), showLines)
      {
        WholeTriangle(i, |calls|, 2 * (N * N));
        assert vertices[i] == Mesh(planeVertices, N)[i];
        assert vertices[i + 1] == Mesh(planeVertices, N)[i + 1];
        assert vertices[i + 2] == Mesh(planeVertices, N)[i + 2];
        var avgHeight := (vertices[i].y + vertices[i + 1].y + vertices[i + 2].y) / 3.0;
        var colour := if avgHeight >= 0.0 then Green else Blue;
        calls := calls + [TriangleDraw(i, colour, showLines)];
        i := i + 3;
      }
    }
  }

  /** A triangle starting before row `3 m` ends by row `3 m`. */
  lemma WholeTriangle(i: nat, t: nat, m: nat)
    requires i == 3 * t && i < 3 * m
    ensures t < m && i + 3 <= 3 * m
  {
  }

  /** Row z < n of the grid's cells starts at cell `z n` and ends at cell `(z + 1) n`,
      within the `n^2` cells. */
  lemma CursorStep(n: nat, z: nat)
    requires z < n
    ensures z * n + n == (z + 1) * n <= n * n
  {
  }

  /** The sizes the vertex array and the display loop are written in, related to the
      mesh size `6 n^2`. */
  lemma MeshArithmetic(n: nat)
    ensures (n * n) * 6 == 6 * (n * n) == 3 * (2 * (n * n))
    ensures NumVertices(n) == 3 * (6 * (n * n))
    ensures n >= 1 ==> 2 * (n * n) >= 2
  {
  }
}
