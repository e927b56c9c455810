/** The obstacle scan of `componentDidUpdate`: the rows of the map are
    walked in order, and the characters of each row from left to right;
    every character equal to the obstacle symbol produces one call
    `drawCell(row, col, mapHeight)`. Rows may have different lengths.
 */
module ObstacleScan {

  /** The (row, column) argument pair of one `drawCell` call. */
  datatype Cell = Cell(row: nat, col: nat)

  /** `cell` names a character of the map equal to the obstacle symbol. */
  predicate IsObstacle(map_: seq<string>, obstacle: char, cell: Cell)
  {
    cell.row < |map_| && cell.col < |map_[cell.row]| && map_[cell.row][cell.col] == obstacle
  }

  /** Row-major order: row index first, then column index. */
  predicate Before(a: Cell, b: Cell)
  {
    a.row < b.row || (a.row == b.row && a.col < b.col)
  }

  predicate StrictlyRowMajor(cells: seq<Cell>)
  {
    forall a, b :: 0 <= a < b < |cells| ==> Before(cells[a], cells[b])
  }

  /** The cells of the first `n` characters of row `row` (text `line`)
      that equal `obstacle`, left to right. */
  function RowHits(line: string, row: nat, obstacle: char, n: nat): (cells: seq<Cell>)
    requires n <= |line|
    ensures forall k :: 0 <= k < |cells| ==>
              cells[k].row == row && cells[k].col < n && line[cells[k].col] == obstacle
  {
    if n == 0 then []
    else RowHits(line, row, obstacle, n - 1) + (if line[n - 1] == obstacle then [Cell(row, n - 1)] else [])
  }

  /** The `drawCell` argument pairs of a whole map, in the order the scan
      produces them. */
  function ObstacleCells(map_: seq<string>, obstacle: char): (cells: seq<Cell>)
    ensures forall k :: 0 <= k < |cells| ==> IsObstacle(map_, obstacle, cells[k])
  {
    if |map_| == 0 then []
    else
      var last := |map_| - 1;
      ObstacleCells(map_[..last], obstacle) + RowHits(map_[last], last, obstacle, |map_[last]|)
  }

  /** Number of occurrences of the obstacle symbol in the whole map. */
  function Occurrences(map_: seq<string>, obstacle: char): nat
  {
    if |map_| == 0 then 0
    else Occurrences(map_[..|map_| - 1], obstacle) + multiset(map_[|map_| - 1])[obstacle]
  }

  /** The scan loop as the component runs it: `forEach` over the rows with
      a counter `i`, and a `for` loop over the columns of each row. */
  method Scan(map_: seq<string>, obstacle: char) returns (calls: seq<Cell>)
    ensures calls == ObstacleCells(map_, obstacle)
  {
    calls := [];
    var i := 0;
    while i < |map_|
      invariant i <= |map_|
      invariant calls == ObstacleCells(map_[..i], obstacle)
    {
      var line := map_[i];
      var j := 0;
      while j < |line|
        invariant j <= |line|
        invariant calls == ObstacleCells(map_[..i], obstacle) + RowHits(line, i, obstacle, j)
      {
        if line[j] == obstacle {
          calls := calls + [Cell(i, j)];
        }
        j := j + 1;
      }
      assert map_[..i + 1][..i] == map_[..i];
      i := i + 1;
    }
    assert map_[..i] == map_;
  }

  /** Every obstacle character of the map is drawn. */
  lemma {:induction false} AllObstaclesDrawn(map_: seq<string>, obstacle: char, cell: Cell)
    requires IsObstacle(map_, obstacle, cell)
    ensures cell in ObstacleCells(map_, obstacle)
  {
    var last := |map_| - 1;
    if cell.row == last {
      RowHitsComplete(map_[last], last, obstacle, |map_[last]|, cell.col);
    } else {
      assert map_[..last][cell.row] == map_[cell.row];
      AllObstaclesDrawn(map_[..last], obstacle, cell);
    }
  }

  lemma {:induction false} RowHitsComplete(line: string, row: nat, obstacle: char, n: nat, col: nat)
    requires col < n <= |line| && line[col] == obstacle
    ensures Cell(row, col) in RowHits(line, row, obstacle, n)
  {
    if col < n - 1 {
      RowHitsComplete(line, row, obstacle, n - 1, col);
    }
  }

  /** A cell is drawn if and only if it holds the obstacle symbol. */
  lemma DrawnIffObstacle(map_: seq<string>, obstacle: char, cell: Cell)
    ensures cell in ObstacleCells(map_, obstacle) <==> IsObstacle(map_, obstacle, cell)
  {
    if IsObstacle(map_, obstacle, cell) {
      AllObstaclesDrawn(map_, obstacle, cell);
    }
  }

  /** The cells of one row come out left to right. */
  lemma {:induction false} RowHitsOrdered(line: string, row: nat, obstacle: char, n: nat)
    requires n <= |line|
    ensures StrictlyRowMajor(RowHits(line, row, obstacle, n))
  {
    if n > 0 {
      RowHitsOrdered(line, row, obstacle, n - 1);
    }
  }

  /** The scan emits its cells in strictly increasing row-major order, so
      in particular no cell is drawn twice. */
  lemma {:induction false} ScanOrdered(map_: seq<string>, obstacle: char)
    ensures StrictlyRowMajor(ObstacleCells(map_, obstacle))
  {
    if |map_| > 0 {
      var last := |map_| - 1;
      var front := ObstacleCells(map_[..last], obstacle);
      var tail := RowHits(map_[last], last, obstacle, |map_[last]|);
      ScanOrdered(map_[..last], obstacle);
      RowHitsOrdered(map_[last], last, obstacle, |map_[last]|);
      forall k | 0 <= k < |front|
        ensures front[k].row < last
      {
        assert IsObstacle(map_[..last], obstacle, front[k]);
      }
    }
  }

  lemma {:induction false} RowHitsCount(line: string, row: nat, obstacle: char, n: nat)
    requires n <= |line|
    ensures |RowHits(line, row, obstacle, n)| == multiset(line[..n])[obstacle]
  {
    if n > 0 {
      RowHitsCount(line, row, obstacle, n - 1);
      assert line[..n] == line[..n - 1] + [line[n - 1]];
    }
  }

  /** One `drawCell` call per occurrence of the obstacle symbol. */
  lemma {:induction false} ScanCount(map_: seq<string>, obstacle: char)
    ensures |ObstacleCells(map_, obstacle)| == Occurrences(map_, obstacle)
  {
    if |map_| > 0 {
      var last := |map_| - 1;
      ScanCount(map_[..last], obstacle);
      RowHitsCount(map_[last], last, obstacle, |map_[last]|);
      assert map_[last][..|map_[last]|] == map_[last];
    }
  }

  /** Adding a row at the bottom appends that row's cells. */
  lemma AppendRow(map_: seq<string>, line: string, obstacle: char)
    ensures ObstacleCells(map_ + [line], obstacle)
            == ObstacleCells(map_, obstacle) + RowHits(line, |map_|, obstacle, |line|)
  {
    assert (map_ + [line])[..|map_|] == map_;
  }

  /** The scenario of a 4 x 4 map with two obstacles. */
  lemma TwoObstacles()
    ensures ObstacleCells(["....", "..T.", ".T..", "...."], 'T') == [Cell(1, 2), Cell(2, 1)]
  {
    var empty, withT1, withT2 := "....", "..T.", ".T..";
    assert RowHits(empty, 0, 'T', 4) == [];
    assert RowHits(withT1, 1, 'T', 4) == [Cell(1, 2)];
    assert RowHits(withT2, 2, 'T', 4) == [Cell(2, 1)];
    assert RowHits(empty, 3, 'T', 4) == [];
    var m0: seq<string> := [];
    var m1, m2, m3, m4 := m0 + [empty], [empty] + [withT1], [empty, withT1] + [withT2], [empty, withT1, withT2] + [empty];
    assert ObstacleCells(m0, 'T') == [];
    AppendRow(m0, empty, 'T');
    assert m1 == [empty] && ObstacleCells(m1, 'T') == [];
    AppendRow([empty], withT1, 'T');
    assert m2 == [empty, withT1] && ObstacleCells(m2, 'T') == [Cell(1, 2)];
    AppendRow([empty, withT1], withT2, 'T');
    assert m3 == [empty, withT1, withT2] && ObstacleCells(m3, 'T') == [Cell(1, 2), Cell(2, 1)];
    AppendRow([empty, withT1, withT2], empty, 'T');
    assert ObstacleCells(m4, 'T') == [Cell(1, 2), Cell(2, 1)];
    assert m4 == ["....", "..T.", ".T..", "...."];
  }
}
