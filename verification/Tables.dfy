// Tables as the editor lays them out: a cell takes the first column that no
// cell above still covers.
module Tables {
  import opened Tree
  import Seqs

  // Spans as the attributes give them.
  datatype TableCell = TableCell(header: bool, content: seq<Node>, colspan: int, rowspan: int)

  // A cell and its grid column; its row is the one it stands in.
  datatype Spot = Spot(column: nat, cell: TableCell)

  type Grid = seq<seq<Spot>>

  function AtLeastOne(span: int): (n: nat)
    ensures n >= 1
  {
    if span < 1 then 1 else span
  }

  function Across(cell: TableCell): nat {
    AtLeastOne(cell.colspan)
  }

  function Down(cell: TableCell): nat {
    AtLeastOne(cell.rowspan)
  }

  function CellRows(g: Grid): seq<seq<TableCell>> {
    seq(|g|, r requires 0 <= r < |g| => CellsOf(g[r]))
  }

  function CellsOf(line: seq<Spot>): seq<TableCell> {
    seq(|line|, i requires 0 <= i < |line| => line[i].cell)
  }

  predicate Covers(g: Grid, r: nat, i: nat, row: nat, column: nat)
    requires r < |g| && i < |g[r]|
  {
    && r <= row < r + Down(g[r][i].cell)
    && g[r][i].column <= column < g[r][i].column + Across(g[r][i].cell)
  }

  predicate Covered(g: Grid, row: nat, column: nat) {
    exists r, i :: 0 <= r < |g| && 0 <= i < |g[r]| && Covers(g, r, i, row, column)
  }

  // ----- the layout -----

  function EndOf(line: seq<Spot>): nat {
    if line == [] then 0 else line[|line| - 1].column + Across(line[|line| - 1].cell)
  }

  // The first column, from the end of the cells before it in its row, that the
  // rows above leave free.
  predicate FirstFree(above: Grid, before: seq<Spot>, column: nat) {
    && EndOf(before) <= column && !Covered(above, |above|, column)
    && forall c :: EndOf(before) <= c < column ==> Covered(above, |above|, c)
  }

  predicate LaidOut(row: seq<TableCell>, above: Grid, line: seq<Spot>) {
    && |line| == |row|
    && forall i :: 0 <= i < |line| ==> line[i].cell == row[i] && FirstFree(above, line[..i], line[i].column)
  }

  predicate IsLayout(rows: seq<seq<TableCell>>, g: Grid) {
    |g| == |rows| && forall r :: 0 <= r < |g| ==> LaidOut(rows[r], g[..r], g[r])
  }

  // One past the last column covered in any row there is.
  ghost predicate IsWidth(g: Grid, width: nat) {
    && (forall row: nat, c: nat :: row < |g| && Covered(g, row, c) ==> c < width)
    && (width == 0 || exists row: nat, c: nat :: row < |g| && Covered(g, row, c) && c + 1 == width)
  }

  method AddRectangle(covered: set<(nat, nat)>, row: nat, column: nat, down: nat, across: nat)
    returns (more: set<(nat, nat)>)
    ensures forall a, b ::
              (a, b) in more <==> (a, b) in covered || (row <= a < row + down && column <= b < column + across)
  {
    more := covered;
    for r := row to row + down
      invariant forall a, b ::
                  (a, b) in more <==> (a, b) in covered || (row <= a < r && column <= b < column + across)
    {
      for c := column to column + across
        invariant forall a, b ::
                    (a, b) in more <==>
                      || (a, b) in covered
                      || (row <= a < r && column <= b < column + across)
                      || (a == r && column <= b < c)
      {
        more := more + {(r, c)};
      }
    }
  }

  method LastColumn(covered: set<(nat, nat)>, row: nat, from: nat) returns (width: nat)
    ensures width >= from && forall c :: (row, c) in covered ==> c < width
    ensures width == from || (row, width - 1) in covered
  {
    width := from;
    var rest := covered;
    while rest != {}
      invariant rest <= covered && width >= from
      invariant forall c :: (row, c) in covered && (row, c) !in rest ==> c < width
      invariant width == from || (row, width - 1) in covered
      decreases |rest|
    {
      var p: (nat, nat) :| p in rest;
      if p.0 == row && p.1 >= width {
        width := p.1 + 1;
      }
      var one: set<(nat, nat)> := {p};
      rest := rest - one;
    }
  }

  ghost predicate Marks(covered: set<(nat, nat)>, g: Grid, bound: nat) {
    && (forall a: nat, b: nat :: (a, b) in covered <==> Covered(g, a, b))
    && (forall a: nat, b: nat :: (a, b) in covered ==> b < bound)
  }

  // What some rows cover, rows that begin with them cover too.
  lemma MoreCovered(a: Grid, b: Grid, row: nat, column: nat)
    requires |a| <= |b| && forall r :: 0 <= r < |a| ==> a[r] <= b[r]
    ensures Covered(a, row, column) ==> Covered(b, row, column)
  {
    if Covered(a, row, column) {
      var r, i :| 0 <= r < |a| && 0 <= i < |a[r]| && Covers(a, r, i, row, column);
      assert a[r][i] == b[r][i];
      assert Covers(b, r, i, row, column);
    }
  }

  lemma CoveredWith(above: Grid, line: seq<Spot>, spot: Spot, row: nat, column: nat)
    ensures Covered(above + [line + [spot]], row, column)
            <==> Covered(above + [line], row, column)
                 || (|above| <= row < |above| + Down(spot.cell)
                     && spot.column <= column < spot.column + Across(spot.cell))
  {
    var a, b := above + [line], above + [line + [spot]];
    MoreCovered(a, b, row, column);
    if Covered(b, row, column) {
      var r, i :| 0 <= r < |b| && 0 <= i < |b[r]| && Covers(b, r, i, row, column);
      if r < |above| || i < |line| {
        assert a[r][i] == b[r][i];
        assert Covers(a, r, i, row, column);
      }
    }
    if |above| <= row < |above| + Down(spot.cell) && spot.column <= column < spot.column + Across(spot.cell) {
      assert b[|above|][|line|] == spot;
      assert Covers(b, |above|, |line|, row, column);
    }
  }

  lemma CoveredWithout(above: Grid, row: nat, column: nat)
    ensures Covered(above + [[]], row, column) <==> Covered(above, row, column)
  {
    var b := above + [[]];
    MoreCovered(above, b, row, column);
    if Covered(b, row, column) {
      var r, i :| 0 <= r < |b| && 0 <= i < |b[r]| && Covers(b, r, i, row, column);
      assert above[r][i] == b[r][i];
      assert Covers(above, r, i, row, column);
    }
  }

  // Cells placed earlier in a row lie before the column the next one starts from.
  predicate EndsBy(line: seq<Spot>, column: nat) {
    forall i :: 0 <= i < |line| ==> line[i].column + Across(line[i].cell) <= column
  }

  lemma OwnRowIsBefore(above: Grid, line: seq<Spot>, column: nat)
    requires EndsBy(line, column)
    ensures Covered(above + [line], |above|, column) <==> Covered(above, |above|, column)
  {
    var b := above + [line];
    MoreCovered(above, b, |above|, column);
    if Covered(b, |above|, column) {
      var r, i :| 0 <= r < |b| && 0 <= i < |b[r]| && Covers(b, r, i, |above|, column);
      assert r < |above| && above[r][i] == b[r][i];
      assert Covers(above, r, i, |above|, column);
    }
  }

  method PlaceRow(row: seq<TableCell>, ghost above: Grid, index: nat, covered: set<(nat, nat)>, ghost bound: nat)
    returns (line: seq<Spot>, column: nat, more: set<(nat, nat)>, ghost reach: nat)
    requires index == |above| && Marks(covered, above, bound)
    ensures LaidOut(row, above, line) && column == EndOf(line)
    ensures Marks(more, above + [line], reach)
  {
    line, column, more, reach := [], 0, covered, bound;
    forall a: nat, b: nat
      ensures Covered(above + [line], a, b) <==> Covered(above, a, b)
    {
      CoveredWithout(above, a, b);
    }
    for i := 0 to |row|
      invariant LaidOut(row[..i], above, line) && column == EndOf(line) && EndsBy(line, column)
      invariant Marks(more, above + [line], reach)
    {
      hide Covered, Covers;
      var cell := row[i];
      ghost var before, from := line, column;
      OwnRowIsBefore(above, before, column);
      while (index, column) in more
        invariant from <= column && EndsBy(before, column)
        invariant (index, column) in more <==> Covered(above, index, column)
        invariant forall c :: from <= c < column ==> Covered(above, index, c)
        decreases reach - column
      {
        column := column + 1;
        OwnRowIsBefore(above, before, column);
      }
      assert FirstFree(above, before, column);
      ghost var was := more;
      more := AddRectangle(more, index, column, Down(cell), Across(cell));
      line := line + [Spot(column, cell)];
      forall a: nat, b: nat
        ensures (a, b) in more <==> Covered(above + [line], a, b)
      {
        CoveredWith(above, before, Spot(column, cell), a, b);
      }
      PlacedOne(row, above, before, i, Spot(column, cell));
      column := column + Across(cell);
      reach := if reach < column then column else reach;
    }
    assert row[..|row|] == row;
  }

  lemma PlacedOne(row: seq<TableCell>, above: Grid, line: seq<Spot>, i: nat, spot: Spot)
    requires i < |row| && LaidOut(row[..i], above, line)
    requires spot.cell == row[i] && FirstFree(above, line, spot.column)
    ensures LaidOut(row[..i + 1], above, line + [spot])
  {
    hide FirstFree;
    var more := line + [spot];
    forall k | 0 <= k < |more|
      ensures more[k].cell == row[..i + 1][k] && FirstFree(above, more[..k], more[k].column)
    {
      if k < i {
        assert more[..k] == line[..k] && more[k] == line[k];
        assert row[..i][k] == row[k];
      } else {
        assert more[..k] == line;
      }
    }
  }

  method Layout(rows: seq<seq<TableCell>>) returns (placed: Grid, width: nat)
    ensures IsLayout(rows, placed) && IsWidth(placed, width)
  {
    var covered: set<(nat, nat)> := {};
    ghost var bound := 0;
    placed, width := [], 0;
    for r := 0 to |rows|
      invariant IsLayout(rows[..r], placed) && IsWidth(placed, width)
      invariant Marks(covered, placed, bound)
    {
      hide Covered, LaidOut;
      ghost var before, from := placed, width;
      var line, column;
      line, column, covered, bound := PlaceRow(rows[r], placed, r, covered, bound);
      RowEnds(rows[r], before, line);
      placed := placed + [line];
      width := LastColumn(covered, r, if width < column then column else width);
      Wider(before, line, from, width);
      RowLaidOut(rows, before, r, line);
    }
    assert rows[..|rows|] == rows;
  }

  // The end of a row's last cell is in a column of that row.
  lemma RowEnds(row: seq<TableCell>, above: Grid, line: seq<Spot>)
    requires LaidOut(row, above, line)
    ensures line == [] || (EndOf(line) > 0 && Covered(above + [line], |above|, EndOf(line) - 1))
  {
    if line != [] {
      var g := above + [line];
      assert Covers(g, |above|, |line| - 1, |above|, EndOf(line) - 1);
    }
  }

  lemma RowLaidOut(rows: seq<seq<TableCell>>, g: Grid, r: nat, line: seq<Spot>)
    requires r < |rows| && IsLayout(rows[..r], g) && LaidOut(rows[r], g, line)
    ensures IsLayout(rows[..r + 1], g + [line])
  {
    hide LaidOut;
    var more := g + [line];
    forall k | 0 <= k < |more|
      ensures LaidOut(rows[..r + 1][k], more[..k], more[k])
    {
      if k < r {
        assert more[..k] == g[..k] && more[k] == g[k];
        assert rows[..r][k] == rows[k];
      } else {
        assert more[..k] == g;
      }
    }
  }

  // Later rows never reach into earlier ones.
  lemma EarlierRow(g: Grid, line: seq<Spot>, row: nat, column: nat)
    requires row < |g|
    ensures Covered(g + [line], row, column) <==> Covered(g, row, column)
  {
    var b := g + [line];
    MoreCovered(g, b, row, column);
    if Covered(b, row, column) {
      var r, i :| 0 <= r < |b| && 0 <= i < |b[r]| && Covers(b, r, i, row, column);
      assert r < |g| && g[r][i] == b[r][i];
      assert Covers(g, r, i, row, column);
    }
  }

  lemma Wider(g: Grid, line: seq<Spot>, from: nat, width: nat)
    requires IsWidth(g, from) && from <= width
    requires forall c: nat :: Covered(g + [line], |g|, c) ==> c < width
    requires width == from || (width > 0 && Covered(g + [line], |g|, width - 1))
    ensures IsWidth(g + [line], width)
  {
    hide Covered;
    var b := g + [line];
    forall row: nat, c: nat | row < |b| && Covered(b, row, c)
      ensures c < width
    {
      if row < |g| {
        EarlierRow(g, line, row, c);
      }
    }
    if width == from && width > 0 {
      var row: nat, c: nat :| row < |g| && Covered(g, row, c) && c + 1 == width;
      EarlierRow(g, line, row, width - 1);
    }
  }

  lemma OneFirstFree(above: Grid, before: seq<Spot>, a: nat, b: nat)
    requires FirstFree(above, before, a) && FirstFree(above, before, b)
    ensures a == b
  {
    hide Covered;
  }

  lemma SpotOf(row: seq<TableCell>, above: Grid, line: seq<Spot>, i: nat)
    requires LaidOut(row, above, line) && i < |row|
    ensures |line| == |row| && line[i].cell == row[i] && FirstFree(above, line[..i], line[i].column)
  {
    hide FirstFree;
  }

  lemma SameSpot(row: seq<TableCell>, above: Grid, a: seq<Spot>, b: seq<Spot>, i: nat)
    requires LaidOut(row, above, a) && LaidOut(row, above, b) && i < |row|
    requires |a| == |b| == |row| && a[..i] == b[..i]
    ensures a[i] == b[i]
  {
    hide FirstFree, LaidOut;
    SpotOf(row, above, a, i);
    SpotOf(row, above, b, i);
    OneFirstFree(above, a[..i], a[i].column, b[i].column);
  }

  // Nothing but the layout's columns will do.
  lemma {:induction false} SameLine(row: seq<TableCell>, above: Grid, a: seq<Spot>, b: seq<Spot>, n: nat)
    requires LaidOut(row, above, a) && LaidOut(row, above, b) && n <= |row|
    ensures a[..n] == b[..n]
    decreases n
  {
    if n > 0 {
      hide LaidOut;
      LineLength(row, above, a);
      LineLength(row, above, b);
      SameLine(row, above, a, b, n - 1);
      SameSpot(row, above, a, b, n - 1);
      Seqs.OneMoreSame(a, b, n - 1);
    }
  }

  lemma {:induction false} LayoutIsUnique(rows: seq<seq<TableCell>>, a: Grid, b: Grid)
    requires IsLayout(rows, a) && IsLayout(rows, b)
    ensures a == b
    decreases |rows|
  {
    hide LaidOut;
    if rows != [] {
      var n := |rows| - 1;
      forall r | 0 <= r < n
        ensures LaidOut(rows[..n][r], a[..n][..r], a[..n][r]) && LaidOut(rows[..n][r], b[..n][..r], b[..n][r])
      {
        assert a[..n][..r] == a[..r] && b[..n][..r] == b[..r];
      }
      LayoutIsUnique(rows[..n], a[..n], b[..n]);
      assert |a[n]| == |rows[n]| == |b[n]| by {
        LineLength(rows[n], a[..n], a[n]);
        LineLength(rows[n], b[..n], b[n]);
      }
      SameLine(rows[n], a[..n], a[n], b[n], |rows[n]|);
      assert a[n] == b[n];
      assert a == a[..n] + [a[n]] && b == b[..n] + [b[n]];
    }
  }

  lemma LineLength(row: seq<TableCell>, above: Grid, line: seq<Spot>)
    requires LaidOut(row, above, line)
    ensures |line| == |row|
  {
  }
}
