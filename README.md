# Terrain generation and mesh building of RandomlyGenerated/final.cpp

This project models the terrain core of the `RandomlyGenerated` demo in Dafny. The core has three parts:

- **The height field.** `findVertices` fills an `(n+1) x (n+1)` grid of heights cell by cell, x outer and z inner. Each cell gets one random perturbation `(rand() % 100 - 50) / 100`:
  - the corner takes the perturbation alone;
  - the first row and the first column add it to the previous cell;
  - every other cell adds it to the mean of its three earlier neighbours `(x, z-1)`, `(x-1, z-1)` and `(x-1, z)`.
- **The vertex array.** `setupVertices` walks the cells, z outer and x inner. It applies the five-entry corner table `vertexRotations` to each cell, writes the diagonal corner twice, and so emits six vertices per cell at a running cursor into the global `vertices`.
- **The display rule and the keys.** The `display` loop colours each vertex triple green when its mean height is `>= 0` and blue otherwise. The `F` key toggles `showLines`. The `R` key regenerates the grid and rebuilds the vertex array.

Modules:

- `HeightField` (`height_field.dfy`) holds the generator and its reference definition:
  - `FindVertices` is an imperative method with the source's nested loops;
  - `Height` is the recursive reference, built on the one cell rule `CellRule`;
  - `Recurrence` is the local recurrence that the loop establishes.
- `MeshBuilder` (`mesh_builder.dfy`) holds the vertex table and the mesh specification:
  - `CellRun` is the six vertices of one cell;
  - `Mesh` is the cell runs concatenated in the loops' order;
  - the lemmas locate each cell in the mesh, list its offsets and bound its coordinates.
- `Renderer` (`renderer.dfy`) holds the colour rule and the class `Scene`. `Scene` holds the program's globals:
  - `planeVertices` as a sequence of rows;
  - `vertices` as an `array` of `18 N^2` rows, all zero at start, like the static buffer;
  - `showLines`.

  Its methods are `SetupVertices`, `Regenerate`, `ToggleLines`, `KeyCallback` and the two display loops:
  - `Display` lets the loop run to `6 N^2` inclusive, as written in the source;
  - `DisplayMesh` stops before `6 N^2`.

The grid size `planeSize` is the constant 40 in the program. Here it is the parameter `N` (`N >= 1` for the scene). The process-wide `rand()` becomes an injected sequence `rs`: the raw non-negative results of successive calls. Cell `(x, z)` consumes draw `x (n+1) + z`. Heights are exact reals.

## Model

| member | source | states |
|---|---|---|
| HeightField.Perturb | RandomlyGenerated/final.cpp:258-263 | every perturbation lies in `[-0.5, 0.49]`; `+0.5` is never reached |
| HeightField.DrawIndex | RandomlyGenerated/final.cpp:260-261 | the x-outer, z-inner loops give cell `(x, z)` a draw below `(n+1)^2` |
| HeightField.DrawIndexInjective | RandomlyGenerated/final.cpp:260-263 | two cells share a draw if and only if they are the same cell |
| HeightField.FindVertices | RandomlyGenerated/final.cpp:252-279 | the result has `n+1` rows of `n+1` heights; every cell is written exactly once (that every neighbour read was written earlier is checked in the body); the result obeys the recurrence and equals the reference grid `HeightGrid` |
| HeightField.RecurrenceDeterminesGrid | RandomlyGenerated/final.cpp:262-274 | a grid obeys the four-case recurrence if and only if it is the generator's grid, so the recurrence has exactly one solution |
| HeightField.HeightBounds | RandomlyGenerated/final.cpp:262-274 | every height lies in `[-(x+z+1)/2, 0.49 (x+z+1)]`, so `abs(h[x][z]) <= (x+z+1)/2` |
| HeightField.FirstRowIsRunningSum | RandomlyGenerated/final.cpp:262-267 | `h[0][z]` is the sum of the perturbations of draws `0 .. z` |
| HeightField.FirstColumnIsRunningSum | RandomlyGenerated/final.cpp:262-270 | `h[x][0]` is the sum of the perturbations of the draws of cells `(0,0) .. (x,0)` |
| MeshBuilder.CellRun | RandomlyGenerated/final.cpp:214-235 | a cell emits six vertices, and rows 2 and 3 of its run are the same vertex |
| MeshBuilder.CellRunSlot | RandomlyGenerated/final.cpp:208-235 | table step `i` of a cell writes `(x+dx - N/2, g[x+dx][z+dz], (z+dz) - N/2)` to its slot of the run; step 2 is repeated in slot 3 |
| MeshBuilder.RunOffsets | RandomlyGenerated/final.cpp:208-235 | the offsets of a run are `(0,0), (0,1), (1,1), (1,1), (0,0), (1,0)` |
| MeshBuilder.CellIndex | RandomlyGenerated/final.cpp:211-213 | cell `(x, z)` is cell `z N + x` of the `N^2` cells, in the loops' order |
| MeshBuilder.RowsLength | RandomlyGenerated/final.cpp:211-240 | the first k rows of cells emit `6 k N` vertices |
| MeshBuilder.Mesh | RandomlyGenerated/final.cpp:204-240 | the whole traversal emits `6 N^2` vertices |
| MeshBuilder.MeshAt | RandomlyGenerated/final.cpp:205-240 | the run of cell `(x, z)` starts at mesh row `6 (z N + x)`, the cursor value at the start of that cell |
| MeshBuilder.MeshSlot | RandomlyGenerated/final.cpp:214-235 | table step `i` of cell `(x, z)` lands on mesh row `6 (z N + x) + slot` with the recentred corner vertex; step 2 also lands on the next row |
| MeshBuilder.MeshOnGrid | RandomlyGenerated/final.cpp:216-220 | every emitted vertex is `(i - N/2, g[i][j], j - N/2)` for some `0 <= i, j <= N`: every grid lookup is inside the grid and every `y` is the grid sample |
| MeshBuilder.MeshCoordinateRange | RandomlyGenerated/final.cpp:216-220 | every emitted x and z coordinate lies in `[-(N/2), N - N/2]`, with integer division |
| MeshBuilder.CellTriangles | RandomlyGenerated/final.cpp:208-235 | each triangle of a cell covers half of the unit square, and the two are wound in opposite directions in the x-z plane |
| Renderer.TriangleColour | RandomlyGenerated/final.cpp:149-161 | a triangle is green exactly when the sum of its three heights is `>= 0`, otherwise blue |
| Renderer.CellColours | RandomlyGenerated/final.cpp:148-161 | triangles `2 (z N + x)` and `2 (z N + x) + 1` of the mesh are coloured by the grid samples of corners `(0,0), (0,1), (1,1)` and `(1,1), (0,0), (1,0)` of cell `(x, z)` |
| Renderer.TrianglesOfCell | RandomlyGenerated/final.cpp:148-152 | the two triangles of cell `(x, z)` are the two halves of its run |
| Renderer.Scene.constructor | RandomlyGenerated/final.cpp:83-95 | at start the grid is the generator's output, outlines are on, and the first `6 N^2` rows are the mesh of that grid; the other rows are zero |
| Renderer.Scene.SetupVertices | RandomlyGenerated/final.cpp:204-241 | afterwards rows `0 .. 6 N^2 - 1` are exactly the mesh of the current grid; rows from `6 N^2` on are unchanged |
| Renderer.Scene.WriteCell | RandomlyGenerated/final.cpp:214-236 | starting at cursor `6 (z N + x)`, one pass writes the six rows of the cell's run, advances the cursor by 6 and changes no other row |
| Renderer.Scene.Regenerate | RandomlyGenerated/final.cpp:304-307 | the grid is regenerated from the new draws, and the vertex array is rebuilt from it in place |
| Renderer.Scene.ToggleLines | RandomlyGenerated/final.cpp:308-311 | `showLines` is flipped |
| Renderer.Scene.KeyCallback | RandomlyGenerated/final.cpp:302-312 | pressing R regenerates and rebuilds; pressing F toggles the outlines; any other key or action changes nothing |
| Renderer.Scene.Display | RandomlyGenerated/final.cpp:148-173 | the loop as written makes `2 N^2 + 1` draws: one per mesh triangle, with its colour and the outline flag, plus one more from rows `6 N^2 .. 6 N^2 + 2`, which lie inside the array but past the mesh, are zero, and are drawn green |
| Renderer.Scene.DisplayMesh | RandomlyGenerated/final.cpp:148-173 | with the bound `i < 6 N^2` it makes exactly the `2 N^2` mesh-triangle draws, in mesh order |

## Left out

- OpenGL, GLEW and GLFW calls are left out because they are a foreign graphics API. This covers buffer creation and upload, uniforms, draw calls, the window and the main loop. `Display` records each draw as a value instead.
- Shader and texture loading (`readShaderSource`, `createShaderProgram`, `loadTexture`) is left out because it is file I/O and foreign libraries.
- The camera (`takeInput`, `mouse_callback`) and the FPS counter are left out because they are float maths and wall-clock state.
- `srand(time(NULL))` and `rand()` are left out: `findVertices` re-seeds from the clock on every call, so two regenerations within the same second replay the same draws. The clock is not modelled; the draws of each call are a parameter.
- IEEE-754 `float` rounding is left out: heights and coordinates are exact reals, and nothing is claimed about rounding.
- The size is the parameter `N >= 1`, not the constant 40. The generator itself also accepts `n = 0`.
- There is no error path for a negative size, because the size is never negative in the program.
- The body of the inner `while` loop of `setupVertices`, which holds the `for i` loop, is the separate method `WriteCell`. This keeps each proof small; the loops and their order are the source's.
- Four facts about `final.cpp` that a reader might expect otherwise; the model follows the code:
  - x and z coordinates span `[-(N/2), N - N/2]` with integer division, not a symmetric `[-N/2, N/2]`;
  - perturbations span `[-0.5, 0.49]`, so `+0.5` is never reached;
  - the two triangles of a cell have opposite windings in the x-z plane (`CellTriangles`);
  - the run of a cell is `(0,0), (0,1), (1,1), (1,1), (0,0), (1,0)`.

## Findings

| source | as written | input that shows it | evidently intended | confidence | as-written member | corrected member |
|---|---|---|---|---|---|---|
| RandomlyGenerated/final.cpp:148 | the display loop runs while `i <= (planeSize * planeSize) * 6`, so it makes `2 N^2 + 1` draws; the last one reads rows `6 N^2 .. 6 N^2 + 2`, past the mesh, and draws a zero-area green triangle at the origin | any size, e.g. `N = 40`: 3201 draws for 3200 triangles | `i < (planeSize * planeSize) * 6`: one draw per mesh triangle | medium, not executed | Renderer.Scene.Display | Renderer.Scene.DisplayMesh |
