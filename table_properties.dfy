/**
 * What `reconstruct_table` computes, stated on the cells it resolves: the grid
 * has as many rows as the largest `RowIndex` and as many columns as the
 * largest `ColumnIndex`, cell (r, c) holds the text of the last resolved cell
 * at that position, and every other position holds "".
 *
 * The proof goes through a total grid write `Put` and shows that filling the
 * pre-sized grid from the dict `rows` writes the same grid as writing the
 * resolved cells one after another: the dict keeps one text per position, the
 * last one assigned.
 */
module TableProperties {
  import opened Wrappers
  import opened TextractSpec

  // ---------------------------------------------------------------------------
  // Reference definitions over the resolved cells

  /** The largest `RowIndex` among the cells. */
  function MaxRowOf(es: seq<CellEntry>): int
    requires es != []
    decreases |es|
  {
    if |es| == 1 then es[0].row else Max(MaxRowOf(es[..|es| - 1]), es[|es| - 1].row)
  }

  /** The largest `ColumnIndex` among the cells. */
  function MaxColOf(es: seq<CellEntry>): int
    requires es != []
    decreases |es|
  {
    if |es| == 1 then es[0].col else Max(MaxColOf(es[..|es| - 1]), es[|es| - 1].col)
  }

  /** The text of the last cell at (r, c), or "" when no cell is there. */
  function TextAt(es: seq<CellEntry>, r: int, c: int): string
    decreases |es|
  {
    if es == [] then ""
    else if es[|es| - 1].row == r && es[|es| - 1].col == c then es[|es| - 1].text
    else TextAt(es[..|es| - 1], r, c)
  }

  /** Textract's indices are 1-based. */
  predicate PositiveIndices(es: seq<CellEntry>) {
    forall k :: 0 <= k < |es| ==> es[k].row >= 1 && es[k].col >= 1
  }

  lemma {:induction false} MaxRowOfBounds(es: seq<CellEntry>)
    requires es != []
    ensures forall k :: 0 <= k < |es| ==> es[k].row <= MaxRowOf(es)
    ensures exists k :: 0 <= k < |es| && es[k].row == MaxRowOf(es)
    decreases |es|
  {
    if |es| > 1 {
      var init := es[..|es| - 1];
      MaxRowOfBounds(init);
      var k :| 0 <= k < |init| && init[k].row == MaxRowOf(init);
      assert es[k] == init[k];
      if MaxRowOf(init) < es[|es| - 1].row {
        assert es[|es| - 1].row == MaxRowOf(es);
      } else {
        assert es[k].row == MaxRowOf(es);
      }
      forall k' | 0 <= k' < |es| ensures es[k'].row <= MaxRowOf(es) {
        if k' < |init| {
          assert es[k'] == init[k'];
        }
      }
    } else {
      assert es[0].row == MaxRowOf(es);
    }
  }

  lemma {:induction false} MaxColOfBounds(es: seq<CellEntry>)
    requires es != []
    ensures forall k :: 0 <= k < |es| ==> es[k].col <= MaxColOf(es)
    ensures exists k :: 0 <= k < |es| && es[k].col == MaxColOf(es)
    decreases |es|
  {
    if |es| > 1 {
      var init := es[..|es| - 1];
      MaxColOfBounds(init);
      var k :| 0 <= k < |init| && init[k].col == MaxColOf(init);
      assert es[k] == init[k];
      if MaxColOf(init) < es[|es| - 1].col {
        assert es[|es| - 1].col == MaxColOf(es);
      } else {
        assert es[k].col == MaxColOf(es);
      }
      forall k' | 0 <= k' < |es| ensures es[k'].col <= MaxColOf(es) {
        if k' < |init| {
          assert es[k'] == init[k'];
        }
      }
    } else {
      assert es[0].col == MaxColOf(es);
    }
  }

  lemma {:induction false} MaxOfBounds(xs: seq<int>)
    requires xs != []
    ensures forall i :: 0 <= i < |xs| ==> xs[i] <= MaxOf(xs)
    ensures exists i :: 0 <= i < |xs| && xs[i] == MaxOf(xs)
    decreases |xs|
  {
    if |xs| > 1 {
      var init := xs[..|xs| - 1];
      MaxOfBounds(init);
      var i :| 0 <= i < |init| && init[i] == MaxOf(init);
      assert xs[i] == init[i];
      if MaxOf(init) < xs[|xs| - 1] {
        assert xs[|xs| - 1] == MaxOf(xs);
      } else {
        assert xs[i] == MaxOf(xs);
      }
      forall i' | 0 <= i' < |xs| ensures xs[i'] <= MaxOf(xs) {
        if i' < |init| {
          assert xs[i'] == init[i'];
        }
      }
    } else {
      assert xs[0] == MaxOf(xs);
    }
  }

  // ---------------------------------------------------------------------------
  // Keys of the dict `rows`

  predicate ColIn(row: Row, c: int) {
    exists j :: 0 <= j < |row| && row[j].0 == c
  }

  predicate RowIn(rows: Rows, r: int) {
    exists i :: 0 <= i < |rows| && rows[i].0 == r
  }

  /** `rows[r][c]` exists. */
  predicate CellIn(rows: Rows, r: int, c: int) {
    exists i :: 0 <= i < |rows| && rows[i].0 == r && ColIn(rows[i].1, c)
  }

  /** A dict has each key once. */
  predicate UniqueCols(row: Row) {
    forall j, j' :: 0 <= j < j' < |row| ==> row[j].0 != row[j'].0
  }

  predicate WellKeyed(rows: Rows) {
    (forall i, i' :: 0 <= i < i' < |rows| ==> rows[i].0 != rows[i'].0) &&
    (forall i :: 0 <= i < |rows| ==> UniqueCols(rows[i].1))
  }

  lemma {:induction false} PutColKeys(row: Row, c: int, t: string, c': int)
    ensures ColIn(PutCol(row, c, t), c') <==> ColIn(row, c') || c' == c
    decreases |row|
  {
    var p := PutCol(row, c, t);
    if row == [] {
      assert p[0].0 == c;
    } else if row[0].0 == c {
      if ColIn(row, c') {
        var j :| 0 <= j < |row| && row[j].0 == c';
        assert p[j].0 == c';
      }
      if ColIn(p, c') {
        var j :| 0 <= j < |p| && p[j].0 == c';
        assert row[j].0 == c';
      }
      assert p[0].0 == c;
    } else {
      var rest := PutCol(row[1..], c, t);
      PutColKeys(row[1..], c, t, c');
      assert p == [row[0]] + rest;
      if ColIn(row, c') {
        var j :| 0 <= j < |row| && row[j].0 == c';
        if j > 0 {
          assert row[1..][j - 1].0 == c';
          var j' :| 0 <= j' < |rest| && rest[j'].0 == c';
          assert p[j' + 1].0 == c';
        } else {
          assert p[0].0 == c';
        }
      }
      if c' == c {
        var j' :| 0 <= j' < |rest| && rest[j'].0 == c';
        assert p[j' + 1].0 == c';
      }
      if ColIn(p, c') {
        var j :| 0 <= j < |p| && p[j].0 == c';
        if j > 0 {
          assert rest[j - 1].0 == c';
          if ColIn(row[1..], c') {
            var j' :| 0 <= j' < |row[1..]| && row[1..][j'].0 == c';
            assert row[j' + 1].0 == c';
          }
        } else {
          assert row[0].0 == c';
        }
      }
    }
  }

  lemma {:induction false} PutColUnique(row: Row, c: int, t: string)
    requires UniqueCols(row)
    ensures UniqueCols(PutCol(row, c, t))
    decreases |row|
  {
    if row != [] && row[0].0 != c {
      var rest := PutCol(row[1..], c, t);
      PutColUnique(row[1..], c, t);
      PutColKeys(row[1..], c, t, row[0].0);
      assert !ColIn(row[1..], row[0].0) by {
        forall j | 0 <= j < |row[1..]| ensures row[1..][j].0 != row[0].0 {
          assert row[1..][j] == row[j + 1];
        }
      }
      var p := PutCol(row, c, t);
      assert p == [row[0]] + rest;
      forall j, j' | 0 <= j < j' < |p| ensures p[j].0 != p[j'].0 {
        if j == 0 {
          assert p[j'] == rest[j' - 1];
        } else {
          assert p[j] == rest[j - 1] && p[j'] == rest[j' - 1];
        }
      }
    }
  }

  lemma CellInCons(x: (int, Row), rest: Rows, r: int, c: int)
    ensures CellIn([x] + rest, r, c) <==> (x.0 == r && ColIn(x.1, c)) || CellIn(rest, r, c)
  {
    var p := [x] + rest;
    if CellIn(p, r, c) {
      var i :| 0 <= i < |p| && p[i].0 == r && ColIn(p[i].1, c);
      if i > 0 {
        assert rest[i - 1] == p[i];
      }
    }
    if CellIn(rest, r, c) {
      var i :| 0 <= i < |rest| && rest[i].0 == r && ColIn(rest[i].1, c);
      assert p[i + 1] == rest[i];
    }
    assert p[0] == x;
  }

  lemma {:induction false} PutCellCells(rows: Rows, e: CellEntry, r: int, c: int)
    ensures CellIn(PutCell(rows, e), r, c) <==> CellIn(rows, r, c) || (r == e.row && c == e.col)
    decreases |rows|
  {
    if rows == [] {
      CellInCons((e.row, [(e.col, e.text)]), [], r, c);
      assert ColIn([(e.col, e.text)], c) <==> c == e.col by {
        assert [(e.col, e.text)][0].0 == e.col;
      }
    } else {
      assert rows == [rows[0]] + rows[1..];
      CellInCons(rows[0], rows[1..], r, c);
      if rows[0].0 == e.row {
        PutColKeys(rows[0].1, e.col, e.text, c);
        CellInCons((e.row, PutCol(rows[0].1, e.col, e.text)), rows[1..], r, c);
      } else {
        PutCellCells(rows[1..], e, r, c);
        CellInCons(rows[0], PutCell(rows[1..], e), r, c);
      }
    }
  }


  lemma {:induction false} PutCellRows(rows: Rows, e: CellEntry, r: int)
    ensures RowIn(PutCell(rows, e), r) <==> RowIn(rows, r) || r == e.row
    decreases |rows|
  {
    var p := PutCell(rows, e);
    if rows == [] {
      assert p[0].0 == e.row;
    } else if rows[0].0 == e.row {
      if RowIn(rows, r) {
        var i :| 0 <= i < |rows| && rows[i].0 == r;
        assert p[i].0 == r;
      }
      if RowIn(p, r) {
        var i :| 0 <= i < |p| && p[i].0 == r;
        assert rows[i].0 == r;
      }
      assert p[0].0 == e.row;
    } else {
      var rest := PutCell(rows[1..], e);
      PutCellRows(rows[1..], e, r);
      assert p == [rows[0]] + rest;
      if RowIn(rows, r) {
        var i :| 0 <= i < |rows| && rows[i].0 == r;
        if i > 0 {
          assert rows[1..][i - 1].0 == r;
          var i' :| 0 <= i' < |rest| && rest[i'].0 == r;
          assert p[i' + 1].0 == r;
        } else {
          assert p[0].0 == r;
        }
      }
      if r == e.row {
        var i' :| 0 <= i' < |rest| && rest[i'].0 == r;
        assert p[i' + 1].0 == r;
      }
      if RowIn(p, r) {
        var i :| 0 <= i < |p| && p[i].0 == r;
        if i > 0 {
          assert rest[i - 1].0 == r;
          if RowIn(rows[1..], r) {
            var i' :| 0 <= i' < |rows[1..]| && rows[1..][i'].0 == r;
            assert rows[i' + 1].0 == r;
          }
        } else {
          assert rows[0].0 == r;
        }
      }
    }
  }

  lemma {:induction false} PutCellWellKeyed(rows: Rows, e: CellEntry)
    requires WellKeyed(rows)
    ensures WellKeyed(PutCell(rows, e))
    decreases |rows|
  {
    var p := PutCell(rows, e);
    if rows == [] {
    } else if rows[0].0 == e.row {
      PutColUnique(rows[0].1, e.col, e.text);
      forall i, i' | 0 <= i < i' < |p| ensures p[i].0 != p[i'].0 {
        assert p[i].0 == rows[i].0 && p[i'].0 == rows[i'].0;
      }
      forall i | 0 <= i < |p| ensures UniqueCols(p[i].1) {
        if i > 0 {
          assert p[i] == rows[i];
        }
      }
    } else {
      var rest := PutCell(rows[1..], e);
      assert WellKeyed(rows[1..]) by {
        forall i | 0 <= i < |rows[1..]| ensures UniqueCols(rows[1..][i].1) {
          assert rows[1..][i] == rows[i + 1];
        }
      }
      PutCellWellKeyed(rows[1..], e);
      PutCellRows(rows[1..], e, rows[0].0);
      assert !RowIn(rows[1..], rows[0].0) by {
        forall i | 0 <= i < |rows[1..]| ensures rows[1..][i].0 != rows[0].0 {
          assert rows[1..][i] == rows[i + 1];
        }
      }
      assert p == [rows[0]] + rest;
      forall i, i' | 0 <= i < i' < |p| ensures p[i].0 != p[i'].0 {
        if i == 0 {
          assert p[i'] == rest[i' - 1];
        } else {
          assert p[i] == rest[i - 1] && p[i'] == rest[i' - 1];
        }
      }
      forall i | 0 <= i < |p| ensures UniqueCols(p[i].1) {
        if i > 0 {
          assert p[i] == rest[i - 1];
        }
      }
    }
  }

  lemma {:induction false} RowsOfWellKeyed(es: seq<CellEntry>)
    ensures WellKeyed(RowsOf(es))
    decreases |es|
  {
    if es != [] {
      RowsOfWellKeyed(es[..|es| - 1]);
      PutCellWellKeyed(RowsOf(es[..|es| - 1]), es[|es| - 1]);
    }
  }

  /** The dict `rows` holds a text at (r, c) exactly when some resolved cell is at (r, c). */
  lemma {:induction false} RowsOfCells(es: seq<CellEntry>, r: int, c: int)
    ensures CellIn(RowsOf(es), r, c) <==> exists k :: 0 <= k < |es| && es[k].row == r && es[k].col == c
    decreases |es|
  {
    if es != [] {
      var init := es[..|es| - 1];
      RowsOfCells(init, r, c);
      PutCellCells(RowsOf(init), es[|es| - 1], r, c);
      if exists k :: 0 <= k < |init| && init[k].row == r && init[k].col == c {
        var k :| 0 <= k < |init| && init[k].row == r && init[k].col == c;
        assert es[k] == init[k];
      }
      if exists k :: 0 <= k < |es| && es[k].row == r && es[k].col == c {
        var k :| 0 <= k < |es| && es[k].row == r && es[k].col == c;
        if k < |init| {
          assert init[k] == es[k];
        }
      }
    }
  }

  // ---------------------------------------------------------------------------
  // Grid writes

  predicate InGrid(g: Grid, r: int, c: int) {
    1 <= r <= |g| && 1 <= c <= |g[r - 1]|
  }

  predicate SameShape(g: Grid, h: Grid) {
    |g| == |h| && forall i :: 0 <= i < |g| ==> |g[i]| == |h[i]|
  }

  /** `table[r - 1][c - 1] = t` at a position inside the grid; nothing elsewhere. */
  function Put(g: Grid, r: int, c: int, t: string): (h: Grid)
    ensures SameShape(g, h)
  {
    if InGrid(g, r, c) then g[r - 1 := g[r - 1][c - 1 := t]] else g
  }

  lemma PutAt(g: Grid, r: int, c: int, t: string, i: int, j: int)
    requires 0 <= i < |g| && 0 <= j < |g[i]|
    ensures Put(g, r, c, t)[i][j] == if i == r - 1 && j == c - 1 then t else g[i][j]
  {
  }

  lemma PutCommute(g: Grid, r: int, c: int, x: string, r': int, c': int, y: string)
    requires r != r' || c != c'
    ensures Put(Put(g, r, c, x), r', c', y) == Put(Put(g, r', c', y), r, c, x)
  {
    var a := Put(Put(g, r, c, x), r', c', y);
    var b := Put(Put(g, r', c', y), r, c, x);
    forall i | 0 <= i < |a| ensures a[i] == b[i] {
      forall j | 0 <= j < |a[i]| ensures a[i][j] == b[i][j] {
        PutAt(g, r, c, x, i, j);
        PutAt(g, r', c', y, i, j);
        PutAt(Put(g, r, c, x), r', c', y, i, j);
        PutAt(Put(g, r', c', y), r, c, x, i, j);
      }
    }
  }

  lemma PutTwice(g: Grid, r: int, c: int, x: string, y: string)
    ensures Put(Put(g, r, c, x), r, c, y) == Put(g, r, c, y)
  {
    var a := Put(Put(g, r, c, x), r, c, y);
    var b := Put(g, r, c, y);
    forall i | 0 <= i < |a| ensures a[i] == b[i] {
      forall j | 0 <= j < |a[i]| ensures a[i][j] == b[i][j] {
        PutAt(g, r, c, x, i, j);
        PutAt(g, r, c, y, i, j);
        PutAt(Put(g, r, c, x), r, c, y, i, j);
      }
    }
  }

  lemma WriteCellInGrid(g: Grid, r: int, c: int, t: string)
    requires InGrid(g, r, c)
    ensures WriteCell(g, r, c, t) == Ok(Put(g, r, c, t))
  {
  }

  /** The writes of one row dict, in its order. */
  function PutRow(g: Grid, r: int, row: Row): (h: Grid)
    ensures SameShape(g, h)
    decreases |row|
  {
    if row == [] then g else PutRow(Put(g, r, row[0].0, row[0].1), r, row[1..])
  }

  /** The writes of the dict `rows`, in its order. */
  function PutRows(g: Grid, rows: Rows): (h: Grid)
    ensures SameShape(g, h)
    decreases |rows|
  {
    if rows == [] then g else PutRows(PutRow(g, rows[0].0, rows[0].1), rows[1..])
  }

  /** The writes of the resolved cells, in their order. */
  function PutAll(g: Grid, es: seq<CellEntry>): (h: Grid)
    ensures SameShape(g, h)
    decreases |es|
  {
    if es == [] then g
    else
      var e := es[|es| - 1];
      Put(PutAll(g, es[..|es| - 1]), e.row, e.col, e.text)
  }

  lemma {:induction false} PutRowSnoc(g: Grid, r: int, row: Row)
    requires row != []
    ensures PutRow(g, r, row) == Put(PutRow(g, r, row[..|row| - 1]), r, row[|row| - 1].0, row[|row| - 1].1)
    decreases |row|
  {
    if |row| > 1 {
      var g' := Put(g, r, row[0].0, row[0].1);
      PutRowSnoc(g', r, row[1..]);
      assert row[1..][..|row| - 2] == row[..|row| - 1][1..];
    }
  }

  lemma {:induction false} PutRowsSnoc(g: Grid, rows: Rows)
    requires rows != []
    ensures PutRows(g, rows) == PutRow(PutRows(g, rows[..|rows| - 1]), rows[|rows| - 1].0, rows[|rows| - 1].1)
    decreases |rows|
  {
    if |rows| > 1 {
      var g' := PutRow(g, rows[0].0, rows[0].1);
      PutRowsSnoc(g', rows[1..]);
      assert rows[1..][..|rows| - 2] == rows[..|rows| - 1][1..];
    }
  }

  /** With every key inside the grid, `FillRow` raises nothing and performs the row's writes. */
  lemma {:induction false} FillRowInGrid(g: Grid, r: int, row: Row)
    requires forall j :: 0 <= j < |row| ==> InGrid(g, r, row[j].0)
    ensures FillRow(g, r, row) == Ok(PutRow(g, r, row))
    decreases |row|
  {
    if row != [] {
      var init := row[..|row| - 1];
      FillRowInGrid(g, r, init);
      var h := PutRow(g, r, init);
      assert InGrid(h, r, row[|row| - 1].0);
      WriteCellInGrid(h, r, row[|row| - 1].0, row[|row| - 1].1);
      PutRowSnoc(g, r, row);
    }
  }

  predicate RowsInGrid(g: Grid, rows: Rows) {
    forall i, j :: 0 <= i < |rows| && 0 <= j < |rows[i].1| ==> InGrid(g, rows[i].0, rows[i].1[j].0)
  }

  lemma {:induction false} FillInGrid(g: Grid, rows: Rows)
    requires RowsInGrid(g, rows)
    ensures Fill(g, rows) == Ok(PutRows(g, rows))
    decreases |rows|
  {
    if rows != [] {
      var init := rows[..|rows| - 1];
      assert RowsInGrid(g, init) by {
        forall i, j | 0 <= i < |init| && 0 <= j < |init[i].1| ensures InGrid(g, init[i].0, init[i].1[j].0) {
          assert init[i] == rows[i];
        }
      }
      FillInGrid(g, init);
      var h := PutRows(g, init);
      var last := rows[|rows| - 1];
      forall j | 0 <= j < |last.1| ensures InGrid(h, last.0, last.1[j].0) {
        assert InGrid(g, rows[|rows| - 1].0, rows[|rows| - 1].1[j].0);
      }
      FillRowInGrid(h, last.0, last.1);
      PutRowsSnoc(g, rows);
    }
  }

  // ---------------------------------------------------------------------------
  // The dict's writes are the cells' writes

  lemma {:induction false} PutPastRow(h: Grid, r: int, c: int, x: string, r': int, row: Row)
    requires forall j :: 0 <= j < |row| ==> r' != r || row[j].0 != c
    ensures PutRow(Put(h, r, c, x), r', row) == Put(PutRow(h, r', row), r, c, x)
    decreases |row|
  {
    if row != [] {
      PutCommute(h, r, c, x, r', row[0].0, row[0].1);
      PutPastRow(Put(h, r', row[0].0, row[0].1), r, c, x, r', row[1..]);
    }
  }

  lemma {:induction false} PutPastRows(h: Grid, r: int, c: int, x: string, rows: Rows)
    requires forall i :: 0 <= i < |rows| ==> rows[i].0 != r
    ensures PutRows(Put(h, r, c, x), rows) == Put(PutRows(h, rows), r, c, x)
    decreases |rows|
  {
    if rows != [] {
      PutPastRow(h, r, c, x, rows[0].0, rows[0].1);
      PutPastRows(PutRow(h, rows[0].0, rows[0].1), r, c, x, rows[1..]);
    }
  }

  /** `row[c] = t` followed by the row's writes is the row's writes followed by `t` at c. */
  lemma {:induction false} PutColWrites(g: Grid, r: int, row: Row, c: int, t: string)
    requires UniqueCols(row)
    ensures PutRow(g, r, PutCol(row, c, t)) == Put(PutRow(g, r, row), r, c, t)
    decreases |row|
  {
    if row == [] {
    } else if row[0].0 == c {
      var rest := row[1..];
      assert PutCol(row, c, t) == [(c, t)] + rest;
      assert forall j :: 0 <= j < |rest| ==> rest[j].0 != c by {
        forall j | 0 <= j < |rest| ensures rest[j].0 != c {
          assert rest[j] == row[j + 1];
        }
      }
      PutPastRow(g, r, c, t, r, rest);
      PutPastRow(g, r, c, row[0].1, r, rest);
      PutTwice(PutRow(g, r, rest), r, c, row[0].1, t);
    } else {
      assert UniqueCols(row[1..]) by {
        forall j, j' | 0 <= j < j' < |row[1..]| ensures row[1..][j].0 != row[1..][j'].0 {
          assert row[1..][j] == row[j + 1] && row[1..][j'] == row[j' + 1];
        }
      }
      assert PutCol(row, c, t) == [row[0]] + PutCol(row[1..], c, t);
      PutColWrites(Put(g, r, row[0].0, row[0].1), r, row[1..], c, t);
    }
  }

  lemma {:induction false} PutCellWrites(g: Grid, rows: Rows, e: CellEntry)
    requires WellKeyed(rows)
    ensures PutRows(g, PutCell(rows, e)) == Put(PutRows(g, rows), e.row, e.col, e.text)
    decreases |rows|
  {
    if rows == [] {
      var row := [(e.col, e.text)];
      assert PutRow(g, e.row, row) == PutRow(Put(g, e.row, e.col, e.text), e.row, []);
      assert PutRows(g, [(e.row, row)]) == PutRows(PutRow(g, e.row, row), []);
    } else if rows[0].0 == e.row {
      var rest := rows[1..];
      assert PutCell(rows, e) == [(e.row, PutCol(rows[0].1, e.col, e.text))] + rest;
      assert forall i :: 0 <= i < |rest| ==> rest[i].0 != e.row by {
        forall i | 0 <= i < |rest| ensures rest[i].0 != e.row {
          assert rest[i] == rows[i + 1];
        }
      }
      PutColWrites(g, e.row, rows[0].1, e.col, e.text);
      PutPastRows(PutRow(g, e.row, rows[0].1), e.row, e.col, e.text, rest);
    } else {
      assert WellKeyed(rows[1..]) by {
        forall i | 0 <= i < |rows[1..]| ensures UniqueCols(rows[1..][i].1) {
          assert rows[1..][i] == rows[i + 1];
        }
      }
      assert PutCell(rows, e) == [rows[0]] + PutCell(rows[1..], e);
      PutCellWrites(PutRow(g, rows[0].0, rows[0].1), rows[1..], e);
    }
  }

  /** Filling from the dict writes what writing the cells in order writes. */
  lemma {:induction false} RowsOfWrites(g: Grid, es: seq<CellEntry>)
    ensures PutRows(g, RowsOf(es)) == PutAll(g, es)
    decreases |es|
  {
    if es != [] {
      var init := es[..|es| - 1];
      RowsOfWrites(g, init);
      RowsOfWellKeyed(init);
      PutCellWrites(g, RowsOf(init), es[|es| - 1]);
    }
  }

  // ---------------------------------------------------------------------------
  // The blank grid

  lemma {:induction false} BlankRowShape(n: int)
    ensures |BlankRow(n)| == if n <= 0 then 0 else n
    ensures forall j :: 0 <= j < |BlankRow(n)| ==> BlankRow(n)[j] == ""
    decreases n
  {
    if n > 0 {
      BlankRowShape(n - 1);
    }
  }

  lemma {:induction false} BlankShape(nrows: int, ncols: int)
    ensures |Blank(nrows, ncols)| == if nrows <= 0 then 0 else nrows
    ensures forall i :: 0 <= i < |Blank(nrows, ncols)| ==> Blank(nrows, ncols)[i] == BlankRow(ncols)
    decreases nrows
  {
    if nrows > 0 {
      BlankShape(nrows - 1, ncols);
      var b := Blank(nrows, ncols);
      forall i | 0 <= i < |b| ensures b[i] == BlankRow(ncols) {
        if i < nrows - 1 {
          assert b[i] == Blank(nrows - 1, ncols)[i];
        }
      }
    }
  }

  /** Writing the cells into a blank grid of the right size leaves each position's last text. */
  lemma {:induction false} PutAllBlank(g: Grid, es: seq<CellEntry>, i: int, j: int)
    requires 0 <= i < |g| && 0 <= j < |g[i]| && g[i][j] == ""
    ensures PutAll(g, es)[i][j] == TextAt(es, i + 1, j + 1)
    decreases |es|
  {
    if es != [] {
      var init := es[..|es| - 1];
      var e := es[|es| - 1];
      PutAllBlank(g, init, i, j);
      PutAt(PutAll(g, init), e.row, e.col, e.text, i, j);
    }
  }

  // ---------------------------------------------------------------------------
  // The dict's maxima are the cells' maxima

  lemma MaxRowKey(es: seq<CellEntry>)
    requires es != []
    ensures RowsOf(es) != [] && RowsNonEmpty(RowsOf(es))
    ensures MaxOf(RowKeys(RowsOf(es))) == MaxRowOf(es)
  {
    var rows := RowsOf(es);
    RowsOfNonEmpty(es);
    MaxOfBounds(RowKeys(rows));
    MaxRowOfBounds(es);
    var i :| 0 <= i < |rows| && RowKeys(rows)[i] == MaxOf(RowKeys(rows));
    assert ColIn(rows[i].1, rows[i].1[0].0);
    RowsOfCells(es, rows[i].0, rows[i].1[0].0);
    var k :| 0 <= k < |es| && es[k].row == MaxRowOf(es);
    RowsOfCells(es, es[k].row, es[k].col);
    var i' :| 0 <= i' < |rows| && rows[i'].0 == es[k].row && ColIn(rows[i'].1, es[k].col);
    assert RowKeys(rows)[i'] == rows[i'].0;
  }

  /** The largest column key of the dict is some cell's column. */
  lemma MaxColKeyIsCell(es: seq<CellEntry>)
    requires es != []
    ensures RowsOf(es) != [] && RowsNonEmpty(RowsOf(es))
    ensures MaxCol(RowsOf(es)) <= MaxColOf(es)
  {
    var rows := RowsOf(es);
    RowsOfNonEmpty(es);
    var ms := RowMaxCols(rows);
    MaxOfBounds(ms);
    MaxColOfBounds(es);
    var i :| 0 <= i < |rows| && ms[i] == MaxOf(ms);
    var ks := ColKeys(rows[i].1);
    MaxOfBounds(ks);
    var j :| 0 <= j < |ks| && ks[j] == MaxOf(ks);
    assert ColIn(rows[i].1, rows[i].1[j].0);
    RowsOfCells(es, rows[i].0, rows[i].1[j].0);
  }

  /** The largest cell column is a column key of the dict. */
  lemma MaxColOfIsKey(es: seq<CellEntry>)
    requires es != []
    ensures RowsOf(es) != [] && RowsNonEmpty(RowsOf(es))
    ensures MaxColOf(es) <= MaxCol(RowsOf(es))
  {
    var rows := RowsOf(es);
    RowsOfNonEmpty(es);
    var ms := RowMaxCols(rows);
    MaxOfBounds(ms);
    MaxColOfBounds(es);
    var k :| 0 <= k < |es| && es[k].col == MaxColOf(es);
    RowsOfCells(es, es[k].row, es[k].col);
    var i :| 0 <= i < |rows| && rows[i].0 == es[k].row && ColIn(rows[i].1, es[k].col);
    var j :| 0 <= j < |rows[i].1| && rows[i].1[j].0 == es[k].col;
    var ks := ColKeys(rows[i].1);
    MaxOfBounds(ks);
    assert ks[j] == es[k].col;
    assert ks[j] <= MaxOf(ks) == ms[i];
    assert ms[i] <= MaxOf(ms);
  }

  // ---------------------------------------------------------------------------
  // reconstruct_table

  /**
   * With 1-based indices, `reconstruct_table` raises nothing once its cells
   * resolve; no cell gives `[]`; otherwise the grid is max-row by max-column,
   * cell (r, c) is at `[r - 1][c - 1]` holding the last text given to it, and
   * every other position is "".
   */
  lemma ReconstructedGrid(t: Block, m: BlockMap, es: seq<CellEntry>)
    requires Entries(t, m) == Ok(es) && PositiveIndices(es)
    ensures Table(t, m).Ok?
    ensures es == [] ==> Table(t, m).value == []
    ensures es != [] ==>
      var g := Table(t, m).value;
      |g| == MaxRowOf(es) &&
      (forall i :: 0 <= i < |g| ==> |g[i]| == MaxColOf(es)) &&
      (forall i, j :: 0 <= i < |g| && 0 <= j < |g[i]| ==> g[i][j] == TextAt(es, i + 1, j + 1))
  {
    RowsOfNonEmpty(es);
    if es != [] {
      EntriesFill(es);
      FilledBlankShape(es);
    }
  }

  /** The blank grid of `reconstruct_table` is as tall as the largest row index and as wide as the largest column index. */
  lemma BlankDimensions(es: seq<CellEntry>)
    requires es != []
    ensures RowsOf(es) != [] && RowsNonEmpty(RowsOf(es))
    ensures BlankFor(RowsOf(es)) == Blank(MaxRowOf(es), MaxColOf(es))
  {
    MaxRowKey(es);
    MaxColKeyIsCell(es);
    MaxColOfIsKey(es);
  }

  /** With positive indices, every stored cell lies inside the blank grid. */
  lemma BlankHoldsRows(es: seq<CellEntry>)
    requires es != [] && PositiveIndices(es)
    ensures RowsInGrid(Blank(MaxRowOf(es), MaxColOf(es)), RowsOf(es))
  {
    var rows := RowsOf(es);
    var b := Blank(MaxRowOf(es), MaxColOf(es));
    MaxRowOfBounds(es);
    MaxColOfBounds(es);
    BlankShape(MaxRowOf(es), MaxColOf(es));
    BlankRowShape(MaxColOf(es));
    forall i, j | 0 <= i < |rows| && 0 <= j < |rows[i].1| ensures InGrid(b, rows[i].0, rows[i].1[j].0) {
      assert ColIn(rows[i].1, rows[i].1[j].0);
      RowsOfCells(es, rows[i].0, rows[i].1[j].0);
    }
  }

  /** The second loop of `reconstruct_table` never fails here, and writes every entry in order. */
  lemma EntriesFill(es: seq<CellEntry>)
    requires es != [] && PositiveIndices(es)
    ensures RowsOf(es) != [] && RowsNonEmpty(RowsOf(es))
    ensures Fill(BlankFor(RowsOf(es)), RowsOf(es)) == Ok(PutAll(Blank(MaxRowOf(es), MaxColOf(es)), es))
  {
    BlankDimensions(es);
    BlankHoldsRows(es);
    FillInGrid(Blank(MaxRowOf(es), MaxColOf(es)), RowsOf(es));
    RowsOfWrites(Blank(MaxRowOf(es), MaxColOf(es)), es);
  }

  /** Writing every entry into the blank grid keeps its shape, and each cell holds the last text written there. */
  lemma FilledBlankShape(es: seq<CellEntry>)
    requires es != [] && PositiveIndices(es)
    ensures
      var g := PutAll(Blank(MaxRowOf(es), MaxColOf(es)), es);
      |g| == MaxRowOf(es) &&
      (forall i :: 0 <= i < |g| ==> |g[i]| == MaxColOf(es)) &&
      (forall i, j :: 0 <= i < |g| && 0 <= j < |g[i]| ==> g[i][j] == TextAt(es, i + 1, j + 1))
  {
    var b := Blank(MaxRowOf(es), MaxColOf(es));
    MaxRowOfBounds(es);
    MaxColOfBounds(es);
    BlankShape(MaxRowOf(es), MaxColOf(es));
    BlankRowShape(MaxColOf(es));
    var g := PutAll(b, es);
    forall i, j | 0 <= i < |g| && 0 <= j < |g[i]| ensures g[i][j] == TextAt(es, i + 1, j + 1) {
      PutAllBlank(b, es, i, j);
    }
  }

  /** Every row of a reconstructed table has as many cells as the first. */
  lemma ReconstructedRectangular(t: Block, m: BlockMap, es: seq<CellEntry>)
    requires Entries(t, m) == Ok(es) && PositiveIndices(es)
    ensures Table(t, m).Ok?
    ensures forall i :: 0 <= i < |Table(t, m).value| ==> |Table(t, m).value[i]| == |Table(t, m).value[0]|
  {
    ReconstructedGrid(t, m, es);
  }
}
