/** The vertex layout that `setupVertices` of RandomlyGenerated/final.cpp writes:
    six vertices per grid cell, cells in z-outer, x-inner order. */
module MeshBuilder {
  import opened HeightField

  /** One row `{x, y, z}` of the vertex array. */
  datatype Vertex = Vertex(x: real, y: real, z: real)

  /** `vertexRotations`: the corner offsets (dx, dz) visited in each cell. */
  const VertexRotations: seq<(nat, nat)> := [(0, 0), (0, 1), (1, 1), (0, 0), (1, 0)]

  lemma RotationsInUnitSquare()
    ensures |VertexRotations| == 5
    ensures forall i :: 0 <= i < 5 ==> VertexRotations[i].0 <= 1 && VertexRotations[i].1 <= 1
  {
  }

  /** The table step that slot j of a cell's six-vertex run comes from: step 2, the
      diagonal corner, is emitted twice. */
  function StepOf(j: nat): (i: nat)
    requires j < 6
    ensures i < 5
  {
    if j <= 2 then j else j - 1
  }

  /** The run slot that table step i is first written to (6, the run length, once all
      five steps are done). */
  function SlotOf(i: nat): (j: nat)
    requires i <= 5
    ensures j <= 6 && (i < 5 ==> j < 6 && StepOf(j) == i)
  {
    if i <= 2 then i else i + 1
  }

  /** The vertex emitted for corner (x + dx, z + dz) of cell (x, z), recentred by `n / 2`. */
  function Corner(g: seq<seq<real>>, n: nat, x: nat, z: nat, offset: (nat, nat)): Vertex
    requires IsGrid(g, n) && x < n && z < n && offset.0 <= 1 && offset.1 <= 1
  {
    var (gx, gz) := (x + offset.0, z + offset.1);
    Vertex((gx - n / 2) as real, g[gx][gz], gz as real - (n / 2) as real)
  }

  /** The six vertices written for cell (x, z); rows 2 and 3 are the same corner. */
  function CellRun(g: seq<seq<real>>, n: nat, x: nat, z: nat): (run: seq<Vertex>)
    requires IsGrid(g, n) && x < n && z < n
    ensures |run| == 6 && run[2] == run[3]
  {
    RotationsInUnitSquare();
    seq(6, j requires 0 <= j < 6 => Corner(g, n, x, z, VertexRotations[StepOf(j)]))
  }

  /** Table step i, corner (x + dx, z + dz), is written to slot `SlotOf(i)` of the run,
      and step 2 to slot 3 too. */
  lemma CellRunSlot(g: seq<seq<real>>, n: nat, x: nat, z: nat, i: nat)
    requires IsGrid(g, n) && x < n && z < n && i < 5
    ensures var (dx, dz) := VertexRotations[i];
      dx <= 1 && dz <= 1 &&
      CellRun(g, n, x, z)[SlotOf(i)] ==
        Vertex((x + dx - n / 2) as real, g[x + dx][z + dz], (z + dz) as real - (n / 2) as real) &&
      (i == 2 ==> CellRun(g, n, x, z)[3] == CellRun(g, n, x, z)[2])
  {
    RotationsInUnitSquare();
  }

  /** A table of n rows of n six-vertex runs, indexed by row z and then by cell x. */
  ghost predicate RunTable<T>(t: seq<seq<seq<T>>>, n: nat)
  {
    |t| == n && forall z :: 0 <= z < n ==> |t[z]| == n && forall x :: 0 <= x < n ==> |t[z][x]| == 6
  }

  /** The runs of cells 0 .. k-1 of one row, in the order the inner loop writes them. */
  function RowRun<T>(row: seq<seq<T>>, k: nat): (r: seq<T>)
    requires k <= |row| && forall x :: 0 <= x < |row| ==> |row[x]| == 6
    ensures |r| == 6 * k
  {
    if k == 0 then [] else RowRun(row, k - 1) + row[k - 1]
  }

  /** The runs of rows 0 .. k-1, in the order the outer loop writes them. */
  function Rows<T>(t: seq<seq<seq<T>>>, n: nat, k: nat): seq<T>
    requires RunTable(t, n) && k <= n
  {
    if k == 0 then [] else Rows(t, n, k - 1) + RowRun(t[k - 1], n)
  }

  /** k rows hold `6 n k` vertices. */
  lemma {:induction false} RowsLength<T>(t: seq<seq<seq<T>>>, n: nat, k: nat)
    requires RunTable(t, n) && k <= n
    ensures |Rows(t, n, k)| == 6 * (k * n)
  {
    if k > 0 {
      RowsLength(t, n, k - 1);
      assert 6 * (k * n) == 6 * ((k - 1) * n) + 6 * n;
    }
  }

  /** Before row z < k there is room for a whole row within the first k rows. */
  lemma {:induction false} RowsRoom<T>(t: seq<seq<seq<T>>>, n: nat, z: nat, k: nat)
    requires RunTable(t, n) && z < k <= n
    ensures |Rows(t, n, z)| + 6 * n <= |Rows(t, n, k)|
  {
    if z < k - 1 {
      RowsRoom(t, n, z, k - 1);
    }
  }

  /** Within the first k cells of a row, cell x starts at 6 x. */
  lemma {:induction false} RowRunAt<T>(row: seq<seq<T>>, k: nat, x: nat, j: nat)
    requires k <= |row| && forall x :: 0 <= x < |row| ==> |row[x]| == 6
    requires x < k && j < 6
    ensures RowRun(row, k)[6 * x + j] == row[x][j]
  {
    if x < k - 1 {
      RowRunAt(row, k - 1, x, j);
    }
  }

  /** Within the first k rows, cell (x, z) starts right after rows 0 .. z-1 and the
      first x cells of row z. */
  lemma {:induction false} RowsAt<T>(t: seq<seq<seq<T>>>, n: nat, k: nat, x: nat, z: nat, j: nat)
    requires RunTable(t, n) && x < n && z < k <= n && j < 6
    ensures |Rows(t, n, z)| + 6 * x + j < |Rows(t, n, k)|
    ensures Rows(t, n, k)[|Rows(t, n, z)| + 6 * x + j] == t[z][x][j]
  {
    RowsRoom(t, n, z, k);
    if z < k - 1 {
      RowsAt(t, n, k - 1, x, z, j);
    } else {
      RowRunAt(t[z], n, x, j);
    }
  }

  /** The run of every cell of the grid, row z of the table holding the cells (x, z). */
  function CellTable(g: seq<seq<real>>, n: nat): (t: seq<seq<seq<Vertex>>>)
    requires IsGrid(g, n)
    ensures RunTable(t, n)
  {
    seq(n, z requires 0 <= z < n => seq(n, x requires 0 <= x < n => CellRun(g, n, x, z)))
  }

  lemma CellTableAt(g: seq<seq<real>>, n: nat, x: nat, z: nat)
    requires IsGrid(g, n) && x < n && z < n
    ensures CellTable(g, n)[z][x] == CellRun(g, n, x, z)
  {
  }

  /** The whole mesh: the cell runs, z-outer and x-inner, `6 n^2` vertices. */
  function Mesh(g: seq<seq<real>>, n: nat): (m: seq<Vertex>)
    requires IsGrid(g, n)
    ensures |m| == 6 * (n * n)
  {
    RowsLength(CellTable(g, n), n, n);
    Rows(CellTable(g, n), n, n)
  }

  /** Cells are numbered row by row: cell (x, z) is cell `z n + x` of the `n^2`. */
  function CellIndex(n: nat, x: nat, z: nat): (c: nat)
    requires x < n && z < n
    ensures c < n * n
  {
    var rest: nat := n - (z + 1);
    assert n * n == (z + 1) * n + rest * n;
    z * n + x
  }

  /** The cursor: the run of cell (x, z) starts at row `6 (z n + x)` of the mesh. */
  lemma MeshAt(g: seq<seq<real>>, n: nat, x: nat, z: nat, j: nat)
    requires IsGrid(g, n) && x < n && z < n && j < 6
    ensures 6 * CellIndex(n, x, z) + j < |Mesh(g, n)|
    ensures Mesh(g, n)[6 * CellIndex(n, x, z) + j] == CellRun(g, n, x, z)[j]
  {
    var t := CellTable(g, n);
    CellTableAt(g, n, x, z);
    RowsAt(t, n, n, x, z, j);
    RowsLength(t, n, z);
    RowsLength(t, n, n);
  }

  /** Table step i of cell (x, z) lands on mesh row `6 (z n + x) + SlotOf(i)`: the
      corner (x + dx, z + dz) recentred by `n / 2`; step 2 is repeated on the next row. */
  lemma MeshSlot(g: seq<seq<real>>, n: nat, x: nat, z: nat, start: nat, i: nat)
    requires IsGrid(g, n) && x < n && z < n && start == 6 * CellIndex(n, x, z) && i < 5
    ensures var dx, dz := VertexRotations[i].0, VertexRotations[i].1;
      var at := start + SlotOf(i);
      dx <= 1 && dz <= 1 && at < |Mesh(g, n)| &&
      Mesh(g, n)[at] == Vertex((x + dx - n / 2) as real, g[x + dx][z + dz], (z + dz) as real - (n / 2) as real) &&
      (i == 2 ==> at + 1 < |Mesh(g, n)| && Mesh(g, n)[at + 1] == Mesh(g, n)[at])
  {
    CellRunSlot(g, n, x, z, i);
    MeshAt(g, n, x, z, SlotOf(i));
    if i == 2 {
      MeshAt(g, n, x, z, 3);
    }
  }

  /** The grid offsets of the six slots of every run are
      (0,0), (0,1), (1,1), (1,1), (0,0), (1,0). */
  lemma RunOffsets(g: seq<seq<real>>, n: nat, x: nat, z: nat)
    requires IsGrid(g, n) && x < n && z < n
    ensures CellRun(g, n, x, z) == [Corner(g, n, x, z, (0, 0)), Corner(g, n, x, z, (0, 1)),
                                    Corner(g, n, x, z, (1, 1)), Corner(g, n, x, z, (1, 1)),
                                    Corner(g, n, x, z, (0, 0)), Corner(g, n, x, z, (1, 0))]
  {
  }

  /** v is the vertex of grid sample (i, j): its y is that sample and its x and z are
      i and j recentred by `n / 2`. */
  ghost predicate SampleVertex(g: seq<seq<real>>, n: nat, v: Vertex, i: nat, j: nat)
    requires IsGrid(g, n)
  {
    i <= n && j <= n && v == Vertex(i as real - (n / 2) as real, g[i][j], j as real - (n / 2) as real)
  }

  /** v is the vertex of some grid sample. */
  ghost predicate OnGrid(g: seq<seq<real>>, n: nat, v: Vertex)
    requires IsGrid(g, n)
  {
    exists i: nat, j: nat :: SampleVertex(g, n, v, i, j)
  }

  lemma CellRunOnGrid(g: seq<seq<real>>, n: nat, x: nat, z: nat)
    requires IsGrid(g, n) && x < n && z < n
    ensures forall k :: 0 <= k < 6 ==> OnGrid(g, n, CellRun(g, n, x, z)[k])
  {
    RotationsInUnitSquare();
    forall k | 0 <= k < 6
      ensures OnGrid(g, n, CellRun(g, n, x, z)[k])
    {
      var (dx, dz) := VertexRotations[StepOf(k)];
      assert SampleVertex(g, n, CellRun(g, n, x, z)[k], x + dx, z + dz);
    }
  }

  lemma {:induction false} RowRunOnGrid(g: seq<seq<real>>, n: nat, row: seq<seq<Vertex>>, k: nat)
    requires IsGrid(g, n) && k <= |row| && forall x :: 0 <= x < |row| ==> |row[x]| == 6
    requires forall x, i :: 0 <= x < |row| && 0 <= i < 6 ==> OnGrid(g, n, row[x][i])
    ensures forall i :: 0 <= i < |RowRun(row, k)| ==> OnGrid(g, n, RowRun(row, k)[i])
  {
    if k > 0 {
      RowRunOnGrid(g, n, row, k - 1);
    }
  }

  lemma {:induction false} RowsOnGrid(g: seq<seq<real>>, n: nat, t: seq<seq<seq<Vertex>>>, k: nat)
    requires IsGrid(g, n) && RunTable(t, n) && k <= n
    requires forall z, x, i :: 0 <= z < n && 0 <= x < n && 0 <= i < 6 ==> OnGrid(g, n, t[z][x][i])
    ensures forall i :: 0 <= i < |Rows(t, n, k)| ==> OnGrid(g, n, Rows(t, n, k)[i])
  {
    if k > 0 {
      RowsOnGrid(g, n, t, k - 1);
      RowRunOnGrid(g, n, t[k - 1], n);
    }
  }

  /** Every vertex of the mesh is a grid sample `(i - n/2, g[i][j], j - n/2)` with
      `0 <= i, j <= n`: every lookup stays inside the grid. */
  lemma MeshOnGrid(g: seq<seq<real>>, n: nat)
    requires IsGrid(g, n)
    ensures forall k :: 0 <= k < |Mesh(g, n)| ==> OnGrid(g, n, Mesh(g, n)[k])
  {
    var t := CellTable(g, n);
    forall z, x | 0 <= z < n && 0 <= x < n
      ensures forall i :: 0 <= i < 6 ==> OnGrid(g, n, t[z][x][i])
    {
      CellTableAt(g, n, x, z);
      CellRunOnGrid(g, n, x, z);
    }
    RowsOnGrid(g, n, t, n);
  }

  /** Every mesh coordinate x and z lies in `[-(n/2), n - n/2]` (integer division). */
  lemma MeshCoordinateRange(g: seq<seq<real>>, n: nat, k: nat)
    requires IsGrid(g, n) && k < |Mesh(g, n)|
    ensures -((n / 2) as real) <= Mesh(g, n)[k].x <= (n - n / 2) as real
    ensures -((n / 2) as real) <= Mesh(g, n)[k].z <= (n - n / 2) as real
  {
    MeshOnGrid(g, n);
    var i: nat, j: nat :| SampleVertex(g, n, Mesh(g, n)[k], i, j);
  }

  /** Twice the signed area of triangle (a, b, c) projected on the x-z plane. */
  function SignedArea2(a: Vertex, b: Vertex, c: Vertex): real
  {
    (b.x - a.x) * (c.z - a.z) - (b.z - a.z) * (c.x - a.x)
  }

  /** The two triangles of a cell each cover half of the unit square, and they are
      wound in opposite directions as seen in the x-z plane. */
  lemma CellTriangles(g: seq<seq<real>>, n: nat, x: nat, z: nat)
    requires IsGrid(g, n) && x < n && z < n
    ensures var run := CellRun(g, n, x, z);
      SignedArea2(run[0], run[1], run[2]) == -1.0 && SignedArea2(run[3], run[4], run[5]) == 1.0
  {
    RunOffsets(g, n, x, z);
  }
}
