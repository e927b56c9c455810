/** Scene contents of the map viewer component across mount and updates.

    The graphics library is opaque here: the scene is the sequence of
    objects added to it, each recorded with the parameters it was created
    with. Mounting adds three point lights. An update whose map differs
    (as an object reference) from the previous one adds one ground grid and
    one square plane per obstacle cell; nothing is ever removed, so grids
    and planes of earlier maps stay in the scene. Object identity of the
    map is modelled by an explicit token carried with it.
 */
module SceneModel {
  import opened Coordinates
  import opened ObstacleScan

  const White: nat := 0xffffff
  const MarkerColor: nat := 0x156289

  datatype SceneObject =
    | PointLight(color: nat, intensity: real, distance: real, position: Vec3)
      /** The two colours are the ones `setColors` gives the grid right
          after it is created. */
    | GridHelper(size: real, divisions: nat, centerLineColor: nat, gridColor: nat)
      /** `widthSegments` is the third argument `PlaneGeometry` receives,
          which the component sets to the cell pitch as well. */
    | PlaneMesh(width: real, height: real, widthSegments: real, color: nat, position: Vec3)

  /** The component's props: the parsed map, the token standing for the
      map's object identity, and the obstacle symbol. */
  datatype Props = Props(map_: seq<string>, mapToken: nat, obstacle: char)

  datatype App = App(props: Props, scene: seq<SceneObject>)

  /** The three lights of `addCustomSceneObjects`, in the order they are added. */
  function Lights(): (lights: seq<SceneObject>)
    ensures |lights| == 3
    ensures forall k :: 0 <= k < 3 ==>
              && lights[k].PointLight?
              && lights[k].color == White && lights[k].intensity == 1.0 && lights[k].distance == 0.0
    ensures forall a, b :: 0 <= a < b < 3 ==> lights[a].position != lights[b].position
  {
    [ PointLight(White, 1.0, 0.0, Vec3(0.0, 200.0, 0.0)),
      PointLight(White, 1.0, 0.0, Vec3(100.0, 200.0, 100.0)),
      PointLight(White, 1.0, 0.0, Vec3(-100.0, -200.0, -100.0)) ]
  }

  /** Number of ground grids in a scene. */
  function CountGrids(scene: seq<SceneObject>): nat
  {
    if |scene| == 0 then 0
    else CountGrids(scene[..|scene| - 1]) + (if scene[|scene| - 1].GridHelper? then 1 else 0)
  }

  lemma {:induction false} CountGridsAppend(a: seq<SceneObject>, b: seq<SceneObject>)
    ensures CountGrids(a + b) == CountGrids(a) + CountGrids(b)
    decreases |b|
  {
    if |b| > 0 {
      var last := |b| - 1;
      assert (a + b)[..|a + b| - 1] == a + b[..last];
      CountGridsAppend(a, b[..last]);
    } else {
      assert a + b == a;
    }
  }

  /** `componentDidMount`: a fresh scene holding the three lights. The map
      in the initial props is not drawn. */
  function Mount(props: Props): (app: App)
    ensures app.props == props
    ensures |app.scene| == 3 && CountGrids(app.scene) == 0
    ensures forall k :: 0 <= k < |app.scene| ==> app.scene[k].PointLight?
  {
    NoGrids(Lights());
    App(props, Lights())
  }

  /** The plane `drawCell(cell.row, cell.col, mapHeight)` adds. */
  function Marker(cell: Cell, mapHeight: nat): (plane: SceneObject)
    requires cell.row < mapHeight
    ensures plane.PlaneMesh? && plane.color == MarkerColor
    ensures plane.width == plane.height == plane.widthSegments == Pitch(mapHeight)
    ensures plane.position.z == 0.0
    ensures plane.position.x == -Height / 2.0 + ((cell.col as real) + 0.5) * plane.width
    ensures plane.position.y == Height / 2.0 - ((cell.row as real) + 0.5) * plane.width
  {
    var s := Pitch(mapHeight);
    PlaneMesh(s, s, s, MarkerColor, Position(cell.row, cell.col, mapHeight))
  }

  /** What one differing update adds, in order: the grid, then one plane
      per obstacle cell in scan order. */
  function DrawMap(map_: seq<string>, obstacle: char): (added: seq<SceneObject>)
    ensures |added| == 1 + Occurrences(map_, obstacle)
    ensures CountGrids(added) == 1
    ensures added[0] == GridHelper(Height, |map_|, White, White)
    ensures forall k :: 1 <= k < |added| ==> added[k].PlaneMesh?
  {
    var cells := ObstacleCells(map_, obstacle);
    var planes := seq(|cells|, k requires 0 <= k < |cells| => Marker(cells[k], |map_|));
    ScanCount(map_, obstacle);
    NoGrids(planes);
    CountGridsAppend([GridHelper(Height, |map_|, White, White)], planes);
    assert CountGrids([GridHelper(Height, |map_|, White, White)]) == 1 by {
      assert [GridHelper(Height, |map_|, White, White)][..0] == [];
    }
    [GridHelper(Height, |map_|, White, White)] + planes
  }

  lemma {:induction false} NoGrids(scene: seq<SceneObject>)
    requires forall k :: 0 <= k < |scene| ==> !scene[k].GridHelper?
    ensures CountGrids(scene) == 0
  {
    if |scene| > 0 {
      NoGrids(scene[..|scene| - 1]);
    }
  }

  /** `componentDidUpdate`: the scene changes only when the map token
      differs from the previous props' token, and then it only grows. */
  function Update(app: App, next: Props): (r: App)
    ensures r.props == next
    ensures app.props.mapToken == next.mapToken ==> r.scene == app.scene
    ensures app.props.mapToken != next.mapToken ==>
              && r.scene == app.scene + DrawMap(next.map_, next.obstacle)
              && app.scene <= r.scene
              && |r.scene| == |app.scene| + 1 + Occurrences(next.map_, next.obstacle)
              && CountGrids(r.scene) == CountGrids(app.scene) + 1
  {
    if app.props.mapToken == next.mapToken then
      app.(props := next)
    else
      var added := DrawMap(next.map_, next.obstacle);
      CountGridsAppend(app.scene, added);
      App(next, app.scene + added)
  }

  /** Successive `componentDidUpdate` calls: a sequence of prop updates
      applied in order, ending with the last props. */
  function Run(app: App, updates: seq<Props>): (r: App)
    ensures |updates| == 0 ==> r == app
    ensures |updates| > 0 ==> r.props == updates[|updates| - 1]
    decreases |updates|
  {
    if |updates| == 0 then app else Run(Update(app, updates[0]), updates[1..])
  }

  /** Number of updates whose map token differs from the one before. */
  function MapChanges(prevToken: nat, updates: seq<Props>): nat
    decreases |updates|
  {
    if |updates| == 0 then 0
    else (if updates[0].mapToken != prevToken then 1 else 0) + MapChanges(updates[0].mapToken, updates[1..])
  }

  /** Updates never remove anything: every earlier object, in particular
      the three lights added at mount, stays at its place in the scene. */
  lemma {:induction false} RunKeepsScene(app: App, updates: seq<Props>)
    ensures app.scene <= Run(app, updates).scene
    decreases |updates|
  {
    if |updates| > 0 {
      RunKeepsScene(Update(app, updates[0]), updates[1..]);
    }
  }

  /** After mounting and any number of updates, the scene still starts
      with the three mount-time lights. */
  lemma LightsStay(props: Props, updates: seq<Props>)
    ensures Lights() <= Run(Mount(props), updates).scene
  {
    RunKeepsScene(Mount(props), updates);
  }

  /** Grids accumulate: the scene holds one grid per map change, not at
      most one. */
  lemma {:induction false} GridsAccumulate(app: App, updates: seq<Props>)
    ensures CountGrids(Run(app, updates).scene) == CountGrids(app.scene) + MapChanges(app.props.mapToken, updates)
    decreases |updates|
  {
    if |updates| > 0 {
      GridsAccumulate(Update(app, updates[0]), updates[1..]);
    }
  }

  /** Updating twice with the same props draws at most once. */
  lemma UpdateIdempotent(app: App, next: Props)
    ensures Update(Update(app, next), next) == Update(app, next)
  {
  }

  /** The plane added for the `k`-th obstacle cell of the scan. */
  lemma DrawnPlane(map_: seq<string>, obstacle: char, k: nat)
    requires k < |ObstacleCells(map_, obstacle)|
    ensures var cell := ObstacleCells(map_, obstacle)[k];
            && IsObstacle(map_, obstacle, cell)
            && k + 1 < |DrawMap(map_, obstacle)|
            && DrawMap(map_, obstacle)[k + 1] == Marker(cell, |map_|)
  {
    ScanCount(map_, obstacle);
  }

  /** Registration of a plane with a grid: the plane's side is the grid's
      cell size `size / divisions`, and its centre is the centre of grid
      cell `cell` in the z = 0 plane (row 0 at the top). */
  predicate Registered(grid: SceneObject, plane: SceneObject, cell: Cell)
    requires grid.GridHelper? && plane.PlaneMesh?
  {
    && grid.divisions > 0
    && plane.width == plane.height == grid.size / (grid.divisions as real)
    && plane.position.x == -grid.size / 2.0 + ((cell.col as real) + 0.5) * plane.width
    && plane.position.y == grid.size / 2.0 - ((cell.row as real) + 0.5) * plane.width
    && plane.position.z == 0.0
  }

  /** The marker of a cell is registered with the grid drawn for the same
      map height. */
  lemma MarkerRegistered(cell: Cell, mapHeight: nat)
    requires cell.row < mapHeight
    ensures Registered(GridHelper(Height, mapHeight, White, White), Marker(cell, mapHeight), cell)
  {
    var s := Pitch(mapHeight);
    var p := Position(cell.row, cell.col, mapHeight);
    assert Marker(cell, mapHeight).position == p;
    assert p.x == -Height / 2.0 + ((cell.col as real) + 0.5) * s;
  }

  /** Every plane of an update sits on the obstacle cell the scan found at
      that position and is registered with the grid added by the same update. */
  lemma MarkersMatchGrid(map_: seq<string>, obstacle: char)
    ensures var added := DrawMap(map_, obstacle);
            var cells := ObstacleCells(map_, obstacle);
            |added| == |cells| + 1 &&
            forall k :: 0 <= k < |cells| ==>
              IsObstacle(map_, obstacle, cells[k]) && Registered(added[0], added[k + 1], cells[k])
  {
    var added := DrawMap(map_, obstacle);
    var cells := ObstacleCells(map_, obstacle);
    ScanCount(map_, obstacle);
    forall k | 0 <= k < |cells|
      ensures IsObstacle(map_, obstacle, cells[k]) && Registered(added[0], added[k + 1], cells[k])
    {
      DrawnPlane(map_, obstacle, k);
      MarkerRegistered(cells[k], |map_|);
    }
  }

  /** Planes of columns below the map height lie within the grid square
      (between the first and last cell centres); a column at or beyond the
      map height lies to the right of the square. */
  lemma MarkersInSquare(map_: seq<string>, obstacle: char)
    ensures var added := DrawMap(map_, obstacle);
            var cells := ObstacleCells(map_, obstacle);
            |added| == |cells| + 1 &&
            forall k :: 0 <= k < |cells| ==>
              var p := added[k + 1].position;
              var s := added[k + 1].width;
              && -Height / 2.0 + s / 2.0 <= p.y <= Height / 2.0 - s / 2.0
              && -Height / 2.0 + s / 2.0 <= p.x
              && (p.x <= Height / 2.0 - s / 2.0 <==> cells[k].col < |map_|)
  {
    var added := DrawMap(map_, obstacle);
    var cells := ObstacleCells(map_, obstacle);
    ScanCount(map_, obstacle);
    forall k | 0 <= k < |cells|
      ensures var p := added[k + 1].position;
              var s := added[k + 1].width;
              && -Height / 2.0 + s / 2.0 <= p.y <= Height / 2.0 - s / 2.0
              && -Height / 2.0 + s / 2.0 <= p.x
              && (p.x <= Height / 2.0 - s / 2.0 <==> cells[k].col < |map_|)
    {
      DrawnPlane(map_, obstacle, k);
      var c := cells[k];
      var h := |map_|;
      InsideSquare(c.row, 0, h);
      if c.col < h {
        InsideSquare(c.row, c.col, h);
      } else {
        OutsideSquare(c.col, h);
        ColumnsMoveRight(c.col, h);
      }
    }
  }

  /** An update with an empty map adds a grid with no divisions and no planes. */
  lemma EmptyMapDrawsGridOnly(obstacle: char)
    ensures DrawMap([], obstacle) == [GridHelper(Height, 0, White, White)]
  {
  }
}
