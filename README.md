# Gouraud surface viewer — a Dafny model of its integer core

The program is a small interactive viewer of a random wave surface. It lays
out a (SIZE+1) x (SIZE+1) lattice of points, adds up to ten sinusoidal ripples
with random frequencies, computes a normal at every point from
finite-difference tangents, and draws one four-cornered polygon per grid cell.
A keyboard callback changes three rotation angles, which the display applies,
or three translation counters, which nothing reads, in steps of 5. It can
also regenerate the surface.

This project models the parts of that program that can be stated exactly:

- `Keyboard` (keyboard.dfy): the transform state machine. The six counters
  and the mode are the fields of the class `Transform`. Its method `Key` is the
  keyboard callback, with the source's sequence of `if` blocks. `Key` is
  proved against `Step`, a table-driven reference definition of one keystroke.
  `Run` folds `Step` over a session of keys, and the lemmas about `Run` cover
  invariance, the mode, drift and undo.
- `Surface` (surface.dfy): surface generation. It covers the draws of the
  random source, the range of the wave frequencies, the integer form of the
  `length >= 10` test, and the nested loops that write the point grid.
- `Normals` (normals.dfy): the choice of tangent indices (forward differences
  inside the grid, a backward difference at the last index) and the nested
  loop that writes the normal grid.
- `Display` (display.dfy): the display callback's cell traversal, i.e. which
  polygons are emitted, in which order, and with which corner indices.
- `Scene` (scene.dfy): regeneration, meaning the surface followed by its
  normals, as done at start-up and on the `i` key.
- `Arith` (arith.dfy): small helper lemmas about products and Euclidean
  division.

How the model is represented:

- The source's six parallel float arrays `Px/Py/Pz` and `Nx/Ny/Nz` become
  one `array2<V>` of points and one of normals. `V` is an abstract type.
- The floating-point maths is passed in as function parameters:
  - `lattice(i, j)` is the start position of a point;
  - `ripple(p, w, i, j)` adds the ripple of wave `w` to a point;
  - `normal(stencil)` is the cross-product normal;
  - `nonDegenerate(stencil)` is the guard `Slength * Tlength > 0`.
- `rand()` is an input sequence `draws` of non-negative integers.
- `SIZE` is a parameter `size >= 1`. The program uses 100.
- The two `mode` values `ROTATE = 1` and `TRANSLATE = 2` become the constructors
  `Rotate` and `Translate`.
- The key is a `char`. The program takes an `unsigned char`.

Each frequency `rand() % SIZE / wave` lies in `[0, (SIZE-1)/wave]`; with
SIZE = 100 and wave 3 the code can draw 33. The program does not check SIZE,
and the index logic here holds for every `size >= 1`.

## Model

| member | source | states |
|---|---|---|
| `Keyboard.MoveOf` | Gouraud/Gouraud/main.cpp:234-264 | Only the six axis keys move a counter. The moved counter is an angle exactly in rotate mode and a position in translate mode. Lower-case keys subtract 5 and upper-case keys add 5. |
| `Keyboard.Step` | Gouraud/Gouraud/main.cpp:214-265 | `r`/`R` select rotate and `t`/`T` select translate. No other key changes the mode. A key that is not an axis key (mode keys, `i`, any other key) changes no counter. Every key changes at most one counter, and that one by exactly 5. An axis key always changes one counter. |
| `Keyboard.RotateKeys` | Gouraud/Gouraud/main.cpp:234-248 | In rotate mode `x`/`y`/`z` decrease `xangle`/`yangle`/`zangle` by 5 and `X`/`Y`/`Z` increase them by 5. Positions and mode are unchanged. |
| `Keyboard.TranslateKeys` | Gouraud/Gouraud/main.cpp:251-265 | In translate mode the same keys change `xpos`/`ypos`/`zpos` by -5/+5. Angles and mode are unchanged. |
| `Keyboard.UndoStep` | Gouraud/Gouraud/main.cpp:236-264 | An axis key followed by the same letter in the other case restores the exact prior state. This holds in both orders. |
| `Keyboard.RunKeepsStepGrid` | Gouraud/Gouraud/main.cpp:214-265 | If all six counters are multiples of 5, they stay so after any sequence of keys. |
| `Keyboard.ReachableOnStepGrid` | Gouraud/Gouraud/main.cpp:57-63 | Starting from the initial all-zero state, every reachable state has all counters multiples of 5. |
| `Keyboard.RunMode` | Gouraud/Gouraud/main.cpp:221-231 | After any session the mode is the one chosen by the last mode key, or the starting mode if there was none. |
| `Keyboard.RunDrift` | Gouraud/Gouraud/main.cpp:234-265 | After n keys, no counter has moved by more than 5n. |
| `Keyboard.Undoing` | Gouraud/Gouraud/main.cpp:236-264 | The undoing session has as many keys as the session, and its k-th key is the opposite-case key of the session's k-th key from the end. |
| `Keyboard.UndoRun` | Gouraud/Gouraud/main.cpp:236-264 | A session without mode keys is undone exactly by its opposite keys in reverse order. |
| `Keyboard.Transform.constructor` | Gouraud/Gouraud/main.cpp:57-63 | Initial state: all six counters 0 and mode rotate. |
| `Keyboard.Transform.Key` | Gouraud/Gouraud/main.cpp:206-267 | The callback's chain of `if` blocks yields exactly `Step` of the old state. It keeps every counter a multiple of 5. It reports a regeneration request iff the key is `i`. |
| `Surface.Draw` | Gouraud/Gouraud/main.cpp:97-98 | `rand() % SIZE / wave`, parsed as `(rand() % SIZE) / wave`, lies in `[0, (SIZE-1)/wave]`. |
| `Surface.LengthGuard` | Gouraud/Gouraud/main.cpp:99-100 | For a non-negative square root `length` of `ri^2 + rj^2`, `length >= 10` holds iff `ri^2 + rj^2 >= 100`. |
| `Surface.SmallWaveSkipped` | Gouraud/Gouraud/main.cpp:99-100 | A wave whose frequencies are both in `[0, 7]` is never applied. |
| `Surface.Waves` | Gouraud/Gouraud/main.cpp:95-98 | There are ten waves. Both frequencies of wave k+1 lie in `[0, (SIZE-1)/(k+1)]`. |
| `Surface.WavesUseFirstDraws` | Gouraud/Gouraud/main.cpp:95-98 | The waves depend only on the first 20 draws of the random source. |
| `Surface.SmallGridHasNoWaves` | Gouraud/Gouraud/main.cpp:95-100 | On a grid with SIZE <= 8 no wave is ever applied, whatever the random source yields. |
| `Surface.FlatWhenNoWave` | Gouraud/Gouraud/main.cpp:86-107 | If no wave is applied, every point keeps its lattice position, so the surface is flat. |
| `Surface.SkippedWaveIsNoOp` | Gouraud/Gouraud/main.cpp:100-106 | A wave that fails the length test leaves every point unchanged. |
| `Surface.InitLattice` | Gouraud/Gouraud/main.cpp:86-92 | After the first loop every one of the (SIZE+1)^2 points holds its lattice position. |
| `Surface.ApplyWave` | Gouraud/Gouraud/main.cpp:101-106 | After the loops of one applied wave, every point holds its old value with that wave's ripple added. |
| `Surface.InitSurface` | Gouraud/Gouraud/main.cpp:83-108 | Exactly 20 draws are consumed, two per wave, rand_i before rand_j. Afterwards every point is its lattice position plus the ripples of the applied waves, in wave order. |
| `Normals.TangentIndices` | Gouraud/Gouraud/main.cpp:120-125 | The tangent index pair `(hi, lo)` lies in `[0, SIZE]`, the two differ by exactly 1, and one of them is `i`. The difference is a forward one (`lo == i`) exactly when `i < SIZE`. |
| `Normals.InitNormals` | Gouraud/Gouraud/main.cpp:113-137 | Every grid point whose tangents pass the guard gets the normal of its stencil. Every other point keeps its previous normal. The stencil of a point reads only in-grid neighbours along i and j. |
| `Display.Quad` | Gouraud/Gouraud/main.cpp:189-197 | The polygon of cell (i, j) has four distinct corners inside the cell. It starts at (i, j) and steps first along i. Each corner is one unit step from the one before, and the last is one unit step from the first. |
| `Display.CellIndex` | Gouraud/Gouraud/main.cpp:185-186 | The row-major position of a cell is below SIZE*SIZE, and division by SIZE gives back the cell's row and column. |
| `Display.DrawSurface` | Gouraud/Gouraud/main.cpp:184-199 | Exactly SIZE*SIZE polygons are emitted. The k-th is the quad of cell (k / SIZE, k % SIZE), i.e. i outer and j inner. Every cell is drawn and no polygon repeats. Every corner index lies in `[0, SIZE]`. |
| `Scene.Regenerate` | Gouraud/Gouraud/main.cpp:214-218 | The points are the surface generated from the first 20 draws, and the normals are then computed from those new points. |

## Left out

- Window creation, the OpenGL state set in `init` and the drawing calls in `display` are left out. They are foreign graphics API calls (main.cpp:155-163, 175-180, 188-200, 272-288). The display's `glRotatef` calls read the three angles; that read is not modelled.
- `glutPostRedisplay` and the `printf` messages are console output and foreign calls, and are left out.
- The float maths is not modelled. This covers the lattice coordinates `Xmin + i*(Xmax-Xmin)/SIZE`, the `sin` ripple, the `sqrt` lengths, the cross product and the normalisation. They appear only as the abstract parameters `lattice`, `ripple`, `normal` and `nonDegenerate`.
- `LengthGuard` reasons about an exact real square root. It does not model single-precision rounding of `sqrt`.
- `Normals.InitNormals`: the three normal arrays are bundled into one array of normals, and the three point arrays into one array of points. The model does not capture that each coordinate of a normal is written separately.
- `Surface.ApplyWave`: the point arrays are bundled into one array of points. The model does not capture that `ripple` changes only the z coordinate.
- `rand()` is not modelled. Its outputs are taken as the input sequence `draws`, which must hold at least 20 non-negative numbers.
- Lighting is not modelled. `doLighting` is an empty loop (main.cpp:140-150), and the lights and their colours (main.cpp:45-49) are never read.
- `Keyboard.Transform.Key`: C `int` overflow of the counters after very many keystrokes is not modelled, because the counters are unbounded integers.
- The position counters are never read by `display`. They are modelled as state only.
