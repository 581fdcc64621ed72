// The Word table a tiling becomes, and what reading it back gives.
module WordTables {
  import opened Wrappers
  import opened Tables
  import opened Tilings
  import opened TableReader

  // In row `r` a Word cell stands for the cell `i` of row `s`: where that cell
  // begins, or as a continuation of it.
  ghost predicate Stands(g: Grid, s: nat, i: nat, r: nat, row: WordRow, j: nat)
    requires j < |row.cells|
  {
    && s < |g| && i < |g[s]| && s <= r < s + Down(g[s][i].cell)
    && StartOf(row, j) == g[s][i].column
    && AtLeastOne(row.cells[j].span) == Across(g[s][i].cell)
    && (s < r ==> row.cells[j].merge.Continue?)
    && (s == r ==> row.cells[j].content == g[s][i].cell.content)
    && (s == r ==> row.cells[j].merge == if Down(g[s][i].cell) > 1 then Restart else Unmerged)
  }

  ghost predicate StandsForOne(g: Grid, r: nat, row: WordRow, j: nat)
    requires j < |row.cells|
  {
    exists s: nat, i: nat :: Stands(g, s, i, r, row, j)
  }

  ghost predicate IsWordRow(g: Grid, r: nat, width: nat, row: WordRow) {
    && row.before == 0 && StartOf(row, |row.cells|) == width
    && forall j :: 0 <= j < |row.cells| ==> StandsForOne(g, r, row, j)
  }

  ghost predicate IsWordTable(g: Grid, widths: seq<nat>, rows: seq<WordRow>) {
    |rows| == |g| == |widths| && forall r :: 0 <= r < |g| ==> IsWordRow(g, r, widths[r], rows[r])
  }

  predicate HeadersAre(rows: seq<WordRow>, headers: seq<bool>) {
    |rows| == |headers| && forall r :: 0 <= r < |rows| ==> rows[r].header == headers[r]
  }

  // ----- every tiling has a Word table -----

  lemma {:induction false} StartOfMore(row: WordRow, cell: WordCell, j: nat)
    requires j <= |row.cells|
    ensures StartOf(row.(cells := row.cells + [cell]), j) == StartOf(row, j)
    decreases j
  {
    if j > 0 {
      StartOfMore(row, cell, j - 1);
    }
  }

  // Whatever covers a place at the edge of two cells begins there.
  ghost predicate OnEdge(g: Grid, r: nat, c: nat) {
    forall s: nat, i: nat :: s < |g| && i < |g[s]| && Covers(g, s, i, r, c) ==> g[s][i].column == c
  }

  lemma NextEdge(g: Grid, widths: seq<nat>, r: nat, s: nat, i: nat)
    requires Tiles(g, widths) && r < |g| && s < |g| && i < |g[s]| && Covers(g, s, i, r, g[s][i].column)
    ensures var c := g[s][i].column + Across(g[s][i].cell); OnEdge(g, r, c) && c <= widths[r]
  {
    var c := g[s][i].column + Across(g[s][i].cell);
    assert Covers(g, s, i, r, c - 1);
    assert Covered(g, r, c - 1);
    forall t: nat, k: nat | t < |g| && k < |g[t]| && Covers(g, t, k, r, c)
      ensures g[t][k].column == c
    {
      if g[t][k].column < c {
        assert Covers(g, t, k, r, c - 1);
        Together(g, s, i, t, k, r, c - 1);
        assert false;
      }
    }
  }

  lemma CellStands(g: Grid, s: nat, i: nat, r: nat, row: WordRow) returns (cell: WordCell)
    requires s < |g| && i < |g[s]| && s <= r < s + Down(g[s][i].cell)
    requires StartOf(row, |row.cells|) == g[s][i].column
    ensures Stands(g, s, i, r, row.(cells := row.cells + [cell]), |row.cells|)
    ensures AtLeastOne(cell.span) == Across(g[s][i].cell)
  {
    var from := g[s][i].cell;
    cell := WordCell(Across(from), if s < r then Continue else if Down(from) > 1 then Restart else Unmerged,
                     from.content);
    StartOfMore(row, cell, |row.cells|);
  }

  lemma RowGrows(g: Grid, r: nat, row: WordRow, cell: WordCell)
    requires IsWordRow(g, r, StartOf(row, |row.cells|), row)
    requires StandsForOne(g, r, row.(cells := row.cells + [cell]), |row.cells|)
    ensures IsWordRow(g, r, StartOf(row, |row.cells|) + AtLeastOne(cell.span), row.(cells := row.cells + [cell]))
  {
    hide StartOf;
    var more := row.(cells := row.cells + [cell]);
    assert StartOf(more, |more.cells|) == StartOf(row, |row.cells|) + AtLeastOne(cell.span) by {
      EndOfMore(row, cell);
    }
    forall j | 0 <= j < |more.cells|
      ensures StandsForOne(g, r, more, j)
    {
      if j < |row.cells| {
        StartOfMore(row, cell, j);
        assert StandsForOne(g, r, row, j);
        var s: nat, i: nat :| Stands(g, s, i, r, row, j);
        assert Stands(g, s, i, r, more, j);
      }
    }
  }

  lemma EndOfMore(row: WordRow, cell: WordCell)
    ensures StartOf(row.(cells := row.cells + [cell]), |row.cells| + 1)
            == StartOf(row, |row.cells|) + AtLeastOne(cell.span)
  {
    StartOfMore(row, cell, |row.cells|);
  }

  lemma WordRowExists(g: Grid, widths: seq<nat>, r: nat, header: bool) returns (row: WordRow)
    requires Tiles(g, widths) && r < |g|
    ensures IsWordRow(g, r, widths[r], row) && row.header == header
  {
    hide StartOf, Covered, Apart;
    row := WordRow(header, 0, []);
    var c := 0;
    assert StartOf(row, 0) == 0 by {
      FirstStart(row);
    }
    assert OnEdge(g, r, 0);
    while c < widths[r]
      invariant c <= widths[r] && StartOf(row, |row.cells|) == c && IsWordRow(g, r, c, row)
      invariant OnEdge(g, r, c) && row.header == header
    {
      var s, i := Coverer(g, widths, r, c);
      NextEdge(g, widths, r, s, i);
      var cell := CellStands(g, s, i, r, row);
      EndOfMore(row, cell);
      assert StandsForOne(g, r, row.(cells := row.cells + [cell]), |row.cells|);
      RowGrows(g, r, row, cell);
      row := row.(cells := row.cells + [cell]);
      c := c + AtLeastOne(cell.span);
    }
  }

  lemma Coverer(g: Grid, widths: seq<nat>, r: nat, c: nat) returns (s: nat, i: nat)
    requires Tiles(g, widths) && r < |g| && c < widths[r]
    ensures s < |g| && i < |g[s]| && Covers(g, s, i, r, c)
  {
    assert Covered(g, r, c);
    s, i :| s < |g| && i < |g[s]| && Covers(g, s, i, r, c);
  }

  lemma WordTableExists(g: Grid, widths: seq<nat>, headers: seq<bool>) returns (rows: seq<WordRow>)
    requires Tiles(g, widths) && |headers| == |g|
    ensures IsWordTable(g, widths, rows) && HeadersAre(rows, headers)
  {
    hide Tiles, IsWordRow;
    assert |widths| == |g| by {
      WidthsFit(g, widths);
    }
    rows := [];
    while |rows| < |g|
      invariant |rows| <= |g|
      invariant forall r :: 0 <= r < |rows| ==> IsWordRow(g, r, widths[r], rows[r]) && rows[r].header == headers[r]
    {
      var row := WordRowExists(g, widths, |rows|, headers[|rows|]);
      rows := rows + [row];
    }
  }

  lemma WidthsFit(g: Grid, widths: seq<nat>)
    requires Tiles(g, widths)
    ensures |widths| == |g|
  {
  }

  // ----- which Word cell a spot becomes -----

  lemma {:induction false} CellHolding(row: WordRow, c: nat, n: nat) returns (j: nat)
    requires n <= |row.cells| && row.before <= c < StartOf(row, n)
    ensures j < n && StartOf(row, j) <= c < StartOf(row, j + 1)
    decreases n
  {
    if StartOf(row, n - 1) <= c {
      j := n - 1;
    } else {
      j := CellHolding(row, c, n - 1);
    }
  }

  lemma SpotIsAt(g: Grid, widths: seq<nat>, rows: seq<WordRow>, s: nat, i: nat, r: nat) returns (j: nat)
    requires Tiles(g, widths) && IsWordTable(g, widths, rows)
    requires s < |g| && i < |g[s]| && s <= r < s + Down(g[s][i].cell)
    ensures r < |rows| && j < |rows[r].cells| && Stands(g, s, i, r, rows[r], j)
    ensures At(rows[r], g[s][i].column) == Some(j)
  {
    hide Apart;
    var c := g[s][i].column;
    assert s + Down(g[s][i].cell) <= |g|;
    assert Covers(g, s, i, r, c);
    assert Covered(g, r, c);
    assert IsWordRow(g, r, widths[r], rows[r]);
    j := CellHolding(rows[r], c, |rows[r].cells|);
    assert StandsForOne(g, r, rows[r], j);
    var t: nat, k: nat :| Stands(g, t, k, r, rows[r], j);
    NextStart(rows[r], j);
    assert Covers(g, t, k, r, c);
    Together(g, s, i, t, k, r, c);
    FoundAt(rows[r], j, |rows[r].cells|);
  }

  // A spot's own row holds it; the rows below, as far as it reaches, find it open.
  lemma {:induction false} SpotIsOpen(g: Grid, widths: seq<nat>, rows: seq<WordRow>, s: nat, i: nat, j: nat, r: nat)
    requires Tiles(g, widths) && IsWordTable(g, widths, rows)
    requires s < |g| && i < |g[s]| && s < r < s + Down(g[s][i].cell) && r <= |rows|
    requires j < |rows[s].cells| && Stands(g, s, i, s, rows[s], j)
    ensures OpenAt(rows, r, g[s][i].column) == Some((s, j))
    decreases r
  {
    hide Tiles, IsWordTable, StartOf, StartsAt;
    var column := g[s][i].column;
    var k := SpotIsAt(g, widths, rows, s, i, r - 1);
    if r - 1 == s {
      OnePlace(rows[s], column, j, k);
    } else {
      SpotIsOpen(g, widths, rows, s, i, j, r - 1);
    }
  }

  lemma OnePlace(row: WordRow, column: nat, j: nat, k: nat)
    requires j < |row.cells| && StartOf(row, j) == column && At(row, column) == Some(k)
    ensures j == k
  {
    FoundAt(row, j, |row.cells|);
  }

  // A Word cell joins the one above exactly when it stands for a spot of an
  // earlier row.
  lemma JoinsExactly(g: Grid, widths: seq<nat>, rows: seq<WordRow>, s: nat, i: nat, r: nat, j: nat)
    requires Tiles(g, widths) && IsWordTable(g, widths, rows)
    requires r < |rows| && j < |rows[r].cells| && Stands(g, s, i, r, rows[r], j)
    ensures Joins(rows, r, j) <==> s < r
  {
    hide Tiles, IsWordTable, StartOf, StartsAt, OpenAt;
    if s < r {
      var k := SpotIsAt(g, widths, rows, s, i, s);
      SpotIsOpen(g, widths, rows, s, i, k, r);
    }
  }

  // ----- the cells a row keeps as its own are its spots, in order -----

  ghost predicate OwnSoFar(g: Grid, r: nat, row: WordRow, j: nat, own: seq<Origin>)
    requires r < |g| && j <= |row.cells|
  {
    && |own| <= |g[r]|
    && (forall i: nat :: i < |own| ==> own[i].1 < |row.cells| && Stands(g, r, i, r, row, own[i].1))
    && (forall i: nat :: i < |own| ==> g[r][i].column < StartOf(row, j))
    && (forall i: nat :: |own| <= i < |g[r]| ==> StartOf(row, j) <= g[r][i].column)
  }

  lemma OwnStep(g: Grid, widths: seq<nat>, r: nat, row: WordRow, j: nat, own: seq<Origin>, s: nat, i: nat)
    requires Tiles(g, widths) && r < |g| && j < |row.cells| && OwnSoFar(g, r, row, j, own)
    requires Stands(g, s, i, r, row, j)
    ensures s < r ==> OwnSoFar(g, r, row, j + 1, own)
    ensures s == r ==> OwnSoFar(g, r, row, j + 1, own + [(r, j)])
  {
    var c := StartOf(row, j);
    NextStart(row, j);
    hide StartOf, Covered, Apart;
    assert Covers(g, s, i, r, c);
    if s < r {
      forall k: nat | |own| <= k < |g[r]|
        ensures StartOf(row, j + 1) <= g[r][k].column
      {
        if g[r][k].column < StartOf(row, j + 1) {
          assert Covers(g, r, k, r, g[r][k].column) && Covers(g, s, i, r, g[r][k].column);
          Together(g, r, k, s, i, r, g[r][k].column);
          assert false;
        }
      }
    } else {
      assert Ordered(g[r]);
      var k := |own|;
      assert k <= i;
      FirstInOrder(g[r], k, i);
    }
  }

  lemma FirstInOrder(line: seq<Spot>, k: nat, i: nat)
    requires Ordered(line) && k <= i < |line| && line[i].column <= line[k].column
    ensures k == i
  {
  }

  lemma {:induction false} OwnAreSpots(g: Grid, widths: seq<nat>, rows: seq<WordRow>, r: nat, j: nat)
    requires Tiles(g, widths) && IsWordTable(g, widths, rows) && r < |g| && j <= |rows[r].cells|
    ensures OwnSoFar(g, r, rows[r], j, Own(rows, r, j))
    decreases j
  {
    hide Tiles, OwnSoFar, StartOf, Joins;
    var row := rows[r];
    assert IsWordRow(g, r, widths[r], row);
    if j == 0 {
      NoneOwn(g, r, row);
    } else {
      OwnAreSpots(g, widths, rows, r, j - 1);
      assert StandsForOne(g, r, row, j - 1);
      var s: nat, i: nat :| Stands(g, s, i, r, row, j - 1);
      JoinsExactly(g, widths, rows, s, i, r, j - 1);
      OwnStep(g, widths, r, row, j - 1, Own(rows, r, j - 1), s, i);
    }
  }

  lemma NoneOwn(g: Grid, r: nat, row: WordRow)
    requires r < |g| && row.before == 0
    ensures OwnSoFar(g, r, row, 0, [])
  {
  }

  lemma AllOwn(g: Grid, widths: seq<nat>, rows: seq<WordRow>, r: nat)
    requires Tiles(g, widths) && IsWordTable(g, widths, rows) && r < |g|
    ensures |OwnIn(rows, r)| == |g[r]|
    ensures forall i: nat :: i < |g[r]| ==>
              OwnIn(rows, r)[i].1 < |rows[r].cells| && Stands(g, r, i, r, rows[r], OwnIn(rows, r)[i].1)
  {
    OwnAreSpots(g, widths, rows, r, |rows[r].cells|);
    hide Own, Stands, StartOf, Apart;
    assert IsWordRow(g, r, widths[r], rows[r]);
    forall i: nat | i < |g[r]|
      ensures g[r][i].column < StartOf(rows[r], |rows[r].cells|)
    {
      assert Covers(g, r, i, r, g[r][i].column);
      assert Covered(g, r, g[r][i].column);
    }
    NoneLeft(g, r, rows[r], OwnIn(rows, r));
  }

  lemma NoneLeft(g: Grid, r: nat, row: WordRow, own: seq<Origin>)
    requires r < |g| && OwnSoFar(g, r, row, |row.cells|, own)
    requires forall i: nat :: i < |g[r]| ==> g[r][i].column < StartOf(row, |row.cells|)
    ensures |own| == |g[r]|
  {
    hide StartOf, Stands;
    if g[r] != [] {
      var last := g[r][|g[r]| - 1];
      assert last.column < StartOf(row, |row.cells|);
    }
  }

  // ----- how high a spot is once read back -----

  lemma ExtendsExactly(g: Grid, widths: seq<nat>, rows: seq<WordRow>, s: nat, i: nat, j: nat, r: nat)
    requires Tiles(g, widths) && IsWordTable(g, widths, rows)
    requires s < r < |rows| && j < |rows[s].cells| && Stands(g, s, i, s, rows[s], j)
    ensures Extends(rows, r, (s, j)) <==> r < s + Down(g[s][i].cell)
  {
    hide Tiles, StartOf, StartsAt, OpenAt, Joins, Apart, Covered, IsWordTable;
    var column := g[s][i].column;
    if r < s + Down(g[s][i].cell) {
      var k := SpotIsAt(g, widths, rows, s, i, r);
      SpotIsOpen(g, widths, rows, s, i, j, r);
      JoinsExactly(g, widths, rows, s, i, r, k);
    } else if Extends(rows, r, (s, j)) {
      var k := At(rows[r], column).value;
      assert StandsForOne(g, r, rows[r], k) by {
        RowOfTable(g, widths, rows, r);
      }
      var t: nat, l: nat :| Stands(g, t, l, r, rows[r], k);
      JoinsExactly(g, widths, rows, t, l, r, k);
      var m := SpotIsAt(g, widths, rows, t, l, t);
      SpotIsOpen(g, widths, rows, t, l, m, r);
      SameColumn(g, widths, s, i, l);
    }
  }

  lemma RowOfTable(g: Grid, widths: seq<nat>, rows: seq<WordRow>, r: nat)
    requires IsWordTable(g, widths, rows) && r < |rows|
    ensures forall j :: 0 <= j < |rows[r].cells| ==> StandsForOne(g, r, rows[r], j)
  {
    assert IsWordRow(g, r, widths[r], rows[r]);
  }

  lemma SameColumn(g: Grid, widths: seq<nat>, s: nat, i: nat, k: nat)
    requires Tiles(g, widths) && s < |g| && i < |g[s]| && k < |g[s]| && g[s][i].column == g[s][k].column
    ensures i == k
  {
    assert Covers(g, s, i, s, g[s][i].column) && Covers(g, s, k, s, g[s][i].column);
    Together(g, s, i, s, k, s, g[s][i].column);
  }

  // The rows from `from` up to `to` that start a cell.
  function StartingRows(g: Grid, from: nat, to: nat): nat
    requires to <= |g|
  {
    if to <= from then 0 else StartingRows(g, from, to - 1) + (if g[to - 1] != [] then 1 else 0)
  }

  lemma {:induction false} HeightIs(g: Grid, widths: seq<nat>, rows: seq<WordRow>, s: nat, i: nat, j: nat, n: nat)
    requires Tiles(g, widths) && IsWordTable(g, widths, rows)
    requires s < n <= |rows| && j < |rows[s].cells| && Stands(g, s, i, s, rows[s], j)
    ensures var to := s + Down(g[s][i].cell);
            Height(rows, (s, j), n) == StartingRows(g, s, if n < to then n else to)
    decreases n
  {
    hide Tiles, Extends, Own, Stands, IsWordTable;
    Inside(g, widths, rows, s, i, j);
    if n == s + 1 {
      assert StartingRows(g, s, s + 1) == StartingRows(g, s, s) + 1;
    } else {
      HeightIs(g, widths, rows, s, i, j, n - 1);
      ExtendsExactly(g, widths, rows, s, i, j, n - 1);
      AllOwn(g, widths, rows, n - 1);
    }
  }

  lemma Inside(g: Grid, widths: seq<nat>, rows: seq<WordRow>, s: nat, i: nat, j: nat)
    requires Tiles(g, widths) && IsWordTable(g, widths, rows)
    requires s < |rows| && j < |rows[s].cells| && Stands(g, s, i, s, rows[s], j)
    ensures |rows| == |g| && s + Down(g[s][i].cell) <= |g| && g[s] != []
  {
  }

  // ----- reading a tiling's Word table back -----

  // A spot as it comes back: it spans the rows, of those it spanned, that
  // start a cell.
  function Shrunk(g: Grid, headers: seq<bool>, s: nat, i: nat): TableCell
    requires s < |g| == |headers| && i < |g[s]| && s + Down(g[s][i].cell) <= |g|
  {
    var cell := g[s][i].cell;
    TableCell(headers[s], Filled(cell.content), Across(cell), StartingRows(g, s, s + Down(cell)))
  }

  predicate Inner(g: Grid) {
    forall s: nat, i: nat :: s < |g| && i < |g[s]| ==> s + Down(g[s][i].cell) <= |g|
  }

  function ShrunkLine(g: Grid, headers: seq<bool>, s: nat): seq<Spot>
    requires s < |g| == |headers| && Inner(g)
  {
    seq(|g[s]|, i requires 0 <= i < |g[s]| => Spot(g[s][i].column, Shrunk(g, headers, s, i)))
  }

  // The rows, of the first `n`, that start a cell.
  function KeptLines(g: Grid, headers: seq<bool>, n: nat): Grid
    requires n <= |g| == |headers| && Inner(g)
  {
    if n == 0 then []
    else if g[n - 1] == [] then KeptLines(g, headers, n - 1)
    else KeptLines(g, headers, n - 1) + [ShrunkLine(g, headers, n - 1)]
  }

  lemma CellComesBack(g: Grid, widths: seq<nat>, headers: seq<bool>, rows: seq<WordRow>, s: nat, i: nat)
    requires Tiles(g, widths) && IsWordTable(g, widths, rows) && HeadersAre(rows, headers) && Inner(g)
    requires s < |g| && i < |g[s]|
    ensures |OwnIn(rows, s)| == |g[s]| && IsCell(rows, OwnIn(rows, s)[i], |rows|)
    ensures CellOf(rows, OwnIn(rows, s)[i], |rows|) == Shrunk(g, headers, s, i)
  {
    AllOwn(g, widths, rows, s);
    hide Tiles, Own, Height, StartingRows, StartOf, Inner, IsWordTable;
    var o := OwnIn(rows, s)[i];
    Inside(g, widths, rows, s, i, o.1);
    HeightIs(g, widths, rows, s, i, o.1, |rows|);
  }

  ghost predicate KeptMatch(rows: seq<WordRow>, kept: seq<seq<Origin>>, lines: Grid) {
    && |kept| == |lines|
    && forall k :: 0 <= k < |kept| ==>
         && |kept[k]| == |lines[k]|
         && forall i :: 0 <= i < |kept[k]| ==>
              IsCell(rows, kept[k][i], |rows|) && CellOf(rows, kept[k][i], |rows|) == lines[k][i].cell
  }

  lemma {:induction false} KeptComeBack(g: Grid, widths: seq<nat>, headers: seq<bool>, rows: seq<WordRow>, n: nat)
    requires Tiles(g, widths) && IsWordTable(g, widths, rows) && HeadersAre(rows, headers) && Inner(g)
    requires n <= |g|
    ensures KeptMatch(rows, Kept(rows, n), KeptLines(g, headers, n))
    decreases n
  {
    hide Tiles, Own, CellOf, Shrunk, Inner, IsCell;
    if n > 0 {
      KeptComeBack(g, widths, headers, rows, n - 1);
      AllOwn(g, widths, rows, n - 1);
      var own := OwnIn(rows, n - 1);
      forall i | 0 <= i < |own|
        ensures IsCell(rows, own[i], |rows|) && CellOf(rows, own[i], |rows|) == ShrunkLine(g, headers, n - 1)[i].cell
      {
        CellComesBack(g, widths, headers, rows, n - 1, i);
      }
    }
  }

  // What the reader makes of the Word table of any tiling: the same cells in
  // the same columns, less the rows that start none.
  lemma ReadBack(g: Grid, widths: seq<nat>, headers: seq<bool>, rows: seq<WordRow>)
    requires Tiles(g, widths) && IsWordTable(g, widths, rows) && HeadersAre(rows, headers) && Inner(g)
    ensures Imported(rows) == CellRows(KeptLines(g, headers, |g|))
  {
    KeptComeBack(g, widths, headers, rows, |g|);
    KeptRead(rows, KeptLines(g, headers, |g|));
  }

  lemma KeptRead(rows: seq<WordRow>, lines: Grid)
    requires KeptMatch(rows, Kept(rows, |rows|), lines)
    ensures Imported(rows) == CellRows(lines)
  {
    hide Kept, CellOf, IsCell;
    forall k | 0 <= k < |lines|
      ensures Imported(rows)[k] == CellsOf(lines[k])
    {
      hide KeptMatch;
      MatchedRow(rows, Kept(rows, |rows|), lines, k);
    }
  }

  lemma MatchedRow(rows: seq<WordRow>, kept: seq<seq<Origin>>, lines: Grid, k: nat)
    requires KeptMatch(rows, kept, lines) && k < |lines|
    requires forall i :: 0 <= i < |kept[k]| ==> IsCell(rows, kept[k][i], |rows|)
    ensures seq(|kept[k]|, i requires 0 <= i < |kept[k]| => CellOf(rows, kept[k][i], |rows|)) == CellsOf(lines[k])
  {
    hide CellOf;
  }
}
