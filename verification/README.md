# Map-to-scene logic of react-path-planning

The viewer loads a text file, splits it into rows, and shows the rows as a
3D scene. The scene has a ground grid the size of the map and a square
plane on every cell that holds the obstacle symbol (`T`). This project
models the logic inside the `App` component that turns a map into scene
objects. The graphics library is treated as opaque: an object is recorded
only with the parameters it is created with.

- `Coordinates` (`coordinates.dfy`) holds the `drawCell` arithmetic, in
  exact `real`. The pitch is `850 / mapHeight`, the offset is half a
  pitch, and z is 0. It proves the bounds, step, symmetry and first-cell
  facts.
- `MapText` (`map_text.dfy`) holds `text.split('\n')` and its inverse,
  joining with `'\n'`.
- `ObstacleScan` (`obstacle_scan.dfy`) holds the row-by-row,
  column-by-column scan of `componentDidUpdate`. It comes in two forms:
  - a functional definition of the `drawCell` argument pairs, `ObstacleCells`;
  - the loop as written, `Scan`, proved equal to `ObstacleCells`.
- `SceneModel` (`scene.dfy`) holds the component as an immutable record
  of props and scene content.
  - `Mount` adds the three point lights.
  - `Update` adds one grid plus one plane per obstacle when the map
    differs from the previous props' map.
  - `Run` applies a sequence of updates.

JavaScript compares the map by object reference (`props.map !==
this.props.map`). The model stands for that reference with an explicit
`mapToken` carried in `Props`. Two props with equal tokens hold the same
map object.

Three consequences of the code are worth stating:
- An update only calls `scene.add` (src/index.js:28-31), so the grids and
  planes of every earlier map stay in the scene.
  `SceneModel.GridsAccumulate` counts one grid per map change.
- An empty map still adds a `GridHelper(850, 0)` (line 28) and never calls
  `drawCell`.
- Mounting does not draw the map in the initial props (lines 16-21). Only
  a later props change with a different map reference draws one.

## Model

| member | source | states |
|---|---|---|
| Coordinates.Pitch | src/index.js:76 | The cell pitch is positive, and pitch × mapHeight is exactly the 850-unit side of the square. |
| Coordinates.Position | src/index.js:76-86 | A plane's centre is x = −850/2 + (col + ½)·pitch and y = 850/2 − (row + ½)·pitch, with z = 0. This is the centre of grid cell (row, col), with row 0 at the top. |
| Coordinates.FirstCell | src/index.js:77-79 | Column 0 sits at x = −850/2 + pitch/2, and row 0 sits at y = 850/2 − pitch/2. |
| Coordinates.Step | src/index.js:78-79 | One column to the right adds exactly one pitch to x. One row down subtracts exactly one pitch from y. |
| Coordinates.Symmetric | src/index.js:78-79 | For indices below mapHeight, x(col) = −x(mapHeight−1−col) and y(row) = −y(mapHeight−1−row). |
| Coordinates.InsideSquare | src/index.js:76-79 | For row, col < mapHeight, x and y lie in [−850/2 + pitch/2, 850/2 − pitch/2]. |
| Coordinates.OutsideSquare | src/index.js:76-78 | The pitch depends on the row count only, so a column ≥ mapHeight (a row longer than the map is tall) is placed with x > 850/2, outside the grid square. |
| MapText.Split | src/index.js:166 | Splitting on '\n' gives (number of '\n') + 1 rows. No row contains '\n', and joining the rows with '\n' rebuilds the text. An empty text gives one empty row, and a trailing '\n' gives a trailing empty row. |
| MapText.SplitJoin | src/index.js:166 | Joining line-feed-free rows with '\n' and splitting again returns the same rows. |
| MapText.TrailingNewline | src/index.js:166 | A text ending in '\n' splits into the rows of the text without it plus one empty row, so the trailing line feed adds one to the map height. |
| MapText.SplitIsUnique | src/index.js:166 | For line-feed-free rows, the rows join to the text exactly when they are the split of the text. |
| ObstacleScan.ObstacleCells | src/index.js:32-41 | Every (row, col) pair the scan emits is inside the map and holds the obstacle symbol. |
| ObstacleScan.RowHits | src/index.js:34-38 | The pairs the column loop emits for one row all carry that row's index and point at obstacle characters among the columns scanned so far. |
| ObstacleScan.Scan | src/index.js:32-41 | The `forEach`/`for` loop with its row counter emits exactly the pair sequence `ObstacleCells`. |
| ObstacleScan.AllObstaclesDrawn | src/index.js:33-38 | Every obstacle character of the map is emitted. |
| ObstacleScan.DrawnIffObstacle | src/index.js:33-38 | A pair is emitted if and only if it names an obstacle character of the map. |
| ObstacleScan.ScanOrdered | src/index.js:32-41 | The emitted pairs are in strictly increasing row-major order (row first, then column), so none repeats. |
| ObstacleScan.ScanCount | src/index.js:33-41 | The number of `drawCell` calls equals the total number of occurrences of the obstacle symbol over all rows. |
| ObstacleScan.TwoObstacles | src/index.js:33-38 | For the map "....", "..T.", ".T..", "...." the scan emits (1, 2) and then (2, 1). |
| SceneModel.Lights | src/index.js:94-105 | `addCustomSceneObjects` adds three white point lights of intensity 1 and distance 0, at three different positions. |
| SceneModel.Mount | src/index.js:93-105 | Mounting yields a scene of exactly three point lights and no grid, and keeps the given props. |
| SceneModel.Marker | src/index.js:76-87 | The mesh `drawCell` adds is a plane of colour 0x156289. Its width, height and third `PlaneGeometry` argument all equal the pitch, and its centre is the centre of cell (row, col) at z = 0. |
| SceneModel.DrawMap | src/index.js:26-41 | A differing update adds the grid `GridHelper(850, mapHeight)` first, then one plane per obstacle occurrence. That is 1 + occurrences objects, exactly one of which is a grid. |
| SceneModel.Update | src/index.js:23-43 | With the same map token the scene is unchanged. With a different token the new scene is the old scene followed by `DrawMap` of the new map, so nothing is removed. The scene then grows by 1 + occurrences, with exactly one more grid. The props always become the new props. |
| SceneModel.Run | src/index.js:23-43 | Successive `componentDidUpdate` calls. With no updates the app is unchanged. Otherwise the props end as the last update's props, whatever happened to the scene. |
| SceneModel.RunKeepsScene | src/index.js:28-31 | Over any sequence of updates, every earlier object stays at its place in the scene. |
| SceneModel.LightsStay | src/index.js:103-105 | After mounting and any updates, the scene still starts with the three mount-time lights. |
| SceneModel.GridsAccumulate | src/index.js:28-31 | The number of grids in the scene grows by one for each update whose map token differs from the previous one. Grids are never replaced. |
| SceneModel.UpdateIdempotent | src/index.js:24 | Applying the same props twice gives the same result as applying them once. |
| SceneModel.MarkerRegistered | src/index.js:76-86 | The plane of a cell is registered with the grid of the same map height. Its side equals the grid's size / divisions, and its centre is the centre of that grid cell at z = 0. |
| SceneModel.MarkersMatchGrid | src/index.js:28-37 | Every plane of an update sits on the obstacle cell the scan found at that position, and is registered with the grid that the same update added. |
| SceneModel.MarkersInSquare | src/index.js:76-79 | Each plane's y lies within the square. Its x is at least the first column's centre, and it is at most the last column's centre exactly when its column is below mapHeight. |
| SceneModel.EmptyMapDrawsGridOnly | src/index.js:26-28 | An empty map adds exactly one grid with 0 divisions and no plane, so the pitch is never computed. |

## Left out

- Coordinates: JavaScript numbers are IEEE-754 doubles. The model uses exact rationals, so the exact equalities (step, symmetry, registration) hold of the model and only up to rounding in the viewer.
- Coordinates.Pitch: requires mapHeight > 0. JavaScript would return `Infinity` for 0, but `drawCell` is only reached when a row exists, so the case never occurs.
- Camera, renderer, `OrbitControls` and their construction in `sceneSetup` (src/index.js:53-73) are left out: they are calls into the graphics library and the DOM.
- The animation loop (`requestAnimationFrame` / `cancelAnimationFrame`, src/index.js:47, 108-115) is left out: it is browser scheduling with no logic beyond render and reschedule.
- Window resize handling (src/index.js:117-127) is left out: it is DOM measurement plus a floating-point `width / height` for the camera aspect.
- Unmount (src/index.js:45-49), the mount toggle, the file input and `FileReader` (src/index.js:134-194) are left out: they are UI and asynchronous I/O. The `readyState` and error checks around the split are part of that.
- The grid's `rotateX(π/2)` call (src/index.js:30) is not modelled. The grid is recorded with the size and divisions it is created with (line 28). Its two colour fields hold the white that `setColors` gives it on line 29. How the graphics library lays out its lines is not part of this model.
- `row.length` and `row[j]` count UTF-16 code units in JavaScript. The model indexes `char` sequences and does no decoding. A `'\r'` from a CRLF file stays at the end of its row, as in the viewer.
- The materials' `side: DoubleSide` flag is not recorded on the plane.
