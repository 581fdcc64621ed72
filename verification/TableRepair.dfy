// A padded table needs no repair exactly when its cells lie apart and end in it.
module TableRepair {
  import opened Wrappers
  import opened Tree
  import opened Tables
  import opened Tilings
  import opened TableReader
  import opened WordTables
  import opened TableRoundTrip
  import opened TablePadding

  // ----- the columns a row covers, counted -----

  function Interval(a: nat, b: nat): (s: set<nat>)
    ensures forall c: nat :: c in s <==> a <= c < b
    ensures |s| == if a <= b then b - a else 0
  {
    if b <= a then {} else Interval(a, b - 1) + {b - 1}
  }

  predicate Touches(spot: Spot, need: nat, c: nat) {
    Down(spot.cell) > need && spot.column <= c < spot.column + Across(spot.cell)
  }

  function ColumnsOf(spot: Spot, need: nat): (s: set<nat>)
    ensures forall c: nat :: c in s <==> Touches(spot, need, c)
  {
    if Down(spot.cell) > need then Interval(spot.column, spot.column + Across(spot.cell)) else {}
  }

  function Columns(line: seq<Spot>, need: nat): set<nat> {
    if line == [] then {} else Columns(line[..|line| - 1], need) + ColumnsOf(line[|line| - 1], need)
  }

  function ColumnsUpTo(g: Grid, index: nat, n: nat): set<nat>
    requires n <= index + 1 && n <= |g|
  {
    if n == 0 then {} else ColumnsUpTo(g, index, n - 1) + Columns(g[n - 1], index - (n - 1))
  }

  function RowColumns(g: Grid, index: nat): set<nat>
    requires index < |g|
  {
    ColumnsUpTo(g, index, index + 1)
  }

  lemma {:induction false} InColumns(line: seq<Spot>, need: nat, c: nat)
    ensures c in Columns(line, need) <==> exists i: nat :: i < |line| && Touches(line[i], need, c)
    decreases |line|
  {
    if line != [] {
      var front := line[..|line| - 1];
      InColumns(front, need, c);
      hide Touches;
      assert forall i :: 0 <= i < |front| ==> front[i] == line[i];
    }
  }

  lemma {:induction false} InColumnsUpTo(g: Grid, index: nat, n: nat, c: nat)
    requires n <= index + 1 && n <= |g|
    ensures c in ColumnsUpTo(g, index, n) <==>
              exists r: nat, i: nat :: r < n && i < |g[r]| && Covers(g, r, i, index, c)
    decreases n
  {
    hide Columns;
    if n > 0 {
      var last: nat := n - 1;
      InColumnsUpTo(g, index, last, c);
      InColumns(g[last], index - last, c);
      forall i: nat | i < |g[last]|
        ensures Touches(g[last][i], index - last, c) <==> Covers(g, last, i, index, c)
      {
      }
      hide Touches, Covers;
    }
  }

  lemma UnionSize(a: set<nat>, b: set<nat>)
    requires a !! b
    ensures |a + b| == |a| + |b|
  {
    assert (a + b) - a == b;
  }

  lemma {:induction false} ColumnsCount(line: seq<Spot>, need: nat)
    requires Ordered(line) && PlainSpans([CellsOf(line)])
    ensures |Columns(line, need)| == Reach(CellsOf(line), need)
    decreases |line|
  {
    if line != [] {
      var front, last := line[..|line| - 1], line[|line| - 1];
      ReachFront(CellsOf(line));
      assert CellsOf(line)[..|line| - 1] == CellsOf(front);
      assert [CellsOf(line)][0][|line| - 1] == last.cell;
      ColumnsCount(front, need);
      forall c | c in Columns(front, need)
        ensures c < last.column
      {
        InColumns(front, need, c);
      }
      UnionSize(Columns(front, need), ColumnsOf(last, need));
    }
  }

  // Apart, a row covers as many columns as its width says.
  lemma {:induction false} WidthCounts(g: Grid, index: nat, n: nat)
    requires Apart(g) && (forall r: nat :: r < |g| ==> Ordered(g[r])) && PlainSpans(CellRows(g))
    requires n <= index + 1 && n <= |g|
    ensures |ColumnsUpTo(g, index, n)| == WidthUpTo(CellRows(g), index, n)
    decreases n
  {
    hide Apart, Ordered, Columns, Reach, PlainSpans;
    if n > 0 {
      var last: nat := n - 1;
      WidthCounts(g, index, last);
      OneRow(CellRows(g), last);
      ColumnsCount(g[last], index - last);
      forall c: nat
        ensures c !in ColumnsUpTo(g, index, last) || c !in Columns(g[last], index - last)
      {
        RowsApart(g, index, last, c);
      }
      UnionSize(ColumnsUpTo(g, index, last), Columns(g[last], index - last));
    }
  }

  lemma RowsApart(g: Grid, index: nat, last: nat, c: nat)
    requires Apart(g) && last <= index && last < |g|
    ensures c !in ColumnsUpTo(g, index, last) || c !in Columns(g[last], index - last)
  {
    InColumnsUpTo(g, index, last, c);
    InColumns(g[last], index - last, c);
    hide Apart, ColumnsUpTo, Columns;
    if c in ColumnsUpTo(g, index, last) && c in Columns(g[last], index - last) {
      var r: nat, i: nat :| r < last && i < |g[r]| && Covers(g, r, i, index, c);
      var j: nat :| j < |g[last]| && Touches(g[last][j], index - last, c);
      assert Covers(g, last, j, index, c);
      Together(g, r, i, last, j, index, c);
      assert false;
    }
  }

  // ----- laid-out rows leave no gaps -----

  lemma LineInOrder(row: seq<TableCell>, above: Grid, line: seq<Spot>)
    requires LaidOut(row, above, line)
    ensures Ordered(line)
  {
    hide Covered;
    forall i, j | 0 <= i < j < |line|
      ensures line[i].column + Across(line[i].cell) <= line[j].column
    {
      EndsRise(row, above, line, i, j);
    }
  }

  lemma {:induction false} EndsRise(row: seq<TableCell>, above: Grid, line: seq<Spot>, i: nat, j: nat)
    requires LaidOut(row, above, line) && i < j < |line|
    ensures line[i].column + Across(line[i].cell) <= line[j].column
    decreases j
  {
    hide Covered, LaidOut;
    LineLength(row, above, line);
    SpotOf(row, above, line, j);
    assert line[..j][j - 1] == line[j - 1];
    if i < j - 1 {
      EndsRise(row, above, line, i, j - 1);
    }
  }

  lemma {:induction false} NoGaps(row: seq<TableCell>, above: Grid, line: seq<Spot>, n: nat, c: nat)
    requires LaidOut(row, above, line) && n <= |line| && c < EndOf(line[..n])
    ensures Covered(above + [line], |above|, c)
    decreases n
  {
    hide Covered, Covers;
    assert FirstFree(above, line[..n - 1], line[n - 1].column);
    assert line[..n][n - 1] == line[n - 1];
    if c < EndOf(line[..n - 1]) {
      NoGaps(row, above, line, n - 1, c);
    } else if c < line[n - 1].column {
      MoreCovered(above, above + [line], |above|, c);
    } else {
      OwnCovers(above, line, n - 1, c);
    }
  }

  lemma OwnCovers(above: Grid, line: seq<Spot>, i: nat, c: nat)
    requires i < |line| && line[i].column <= c < line[i].column + Across(line[i].cell)
    ensures Covered(above + [line], |above|, c)
  {
    assert Covers(above + [line], |above|, i, |above|, c);
  }

  // ----- blanks stay in their row -----

  // Row by row, `p` begins with the spots of `g` and goes on with blanks.
  ghost predicate Blanked(g: Grid, p: Grid) {
    && |p| == |g|
    && forall r :: 0 <= r < |g| ==>
         && g[r] <= p[r]
         && forall i :: |g[r]| <= i < |p[r]| ==> p[r][i].cell == Blank()
  }

  lemma BlankedBelow(g: Grid, p: Grid, row: nat, c: nat)
    requires Blanked(g, p) && row >= |g|
    ensures Covered(p, row, c) <==> Covered(g, row, c)
  {
    MoreCovered(g, p, row, c);
    if Covered(p, row, c) {
      var r: nat, i: nat :| r < |p| && i < |p[r]| && Covers(p, r, i, row, c);
      assert i < |g[r]|;
      assert g[r][i] == p[r][i];
      assert Covers(g, r, i, row, c);
    }
  }

  // The layout of padded rows is the layout of the rows, and blanks.
  lemma {:induction false} PaddedLayout(rows: seq<seq<TableCell>>, target: nat, padded: seq<seq<TableCell>>, g: Grid, p: Grid)
    requires PlainSpans(rows) && IsPadded(rows, target, padded) && IsLayout(rows, g) && IsLayout(padded, p)
    ensures Blanked(g, p)
  {
    hide LaidOut, RowWidth, Covered;
    var n := 0;
    while n < |rows|
      invariant n <= |rows| && Blanked(g[..n], p[..n])
    {
      PaddedLine(rows[n], padded[n], g[..n], p[..n], g[n], p[n]);
      assert g[..n + 1] == g[..n] + [g[n]] && p[..n + 1] == p[..n] + [p[n]];
      n := n + 1;
    }
    assert g[..n] == g && p[..n] == p;
  }

  lemma SameFirstFree(above: Grid, blanked: Grid, before: seq<Spot>, column: nat)
    requires Blanked(above, blanked) && FirstFree(blanked, before, column)
    ensures FirstFree(above, before, column)
  {
    hide Covered;
    forall c: nat
      ensures Covered(blanked, |blanked|, c) <==> Covered(above, |above|, c)
    {
      BlankedBelow(above, blanked, |above|, c);
    }
  }

  lemma PaddedLine(row: seq<TableCell>, padded: seq<TableCell>, above: Grid, blanked: Grid, line: seq<Spot>, full: seq<Spot>)
    requires Blanked(above, blanked) && LaidOut(row, above, line) && LaidOut(padded, blanked, full)
    requires |padded| >= |row| && padded == row + Blanks(|padded| - |row|)
    ensures line <= full && forall i :: |line| <= i < |full| ==> full[i].cell == Blank()
  {
    hide Covered, FirstFree;
    var start := full[..|row|];
    forall i | 0 <= i < |row|
      ensures start[i].cell == row[i] && FirstFree(above, start[..i], start[i].column)
    {
      assert start[..i] == full[..i];
      SameFirstFree(above, blanked, full[..i], full[i].column);
    }
    SameLine(row, above, line, start, |row|);
    assert line == line[..|row|] && start == start[..|row|];
    forall i | |line| <= i < |full|
      ensures full[i].cell == Blank()
    {
      assert padded[i] == Blanks(|padded| - |row|)[i - |row|];
    }
  }

  lemma BlankAlone(p: Grid, s: nat, i: nat, t: nat, j: nat, row: nat, c: nat)
    requires s < |p| && i < |p[s]| && t < |p| && j < |p[t]| && p[s][i].cell == Blank()
    requires Ordered(p[s]) && FirstFree(p[..s], p[s][..i], p[s][i].column)
    requires Covers(p, s, i, row, c) && Covers(p, t, j, row, c)
    ensures s == t && i == j
  {
    assert row == s && c == p[s][i].column;
    if t < s {
      assert p[..s][t] == p[t];
      assert Covers(p[..s], t, j, s, c);
      assert Covered(p[..s], s, c);
    }
  }

  lemma PaddedApart(padded: seq<seq<TableCell>>, g: Grid, p: Grid)
    requires IsLayout(padded, p) && Blanked(g, p) && Apart(g)
    ensures Apart(p)
  {
    hide Covers, LaidOut, Apart, FirstFree;
    forall s: nat, i: nat, t: nat, j: nat, row: nat, c: nat |
      s < |p| && i < |p[s]| && t < |p| && j < |p[t]| && Covers(p, s, i, row, c) && Covers(p, t, j, row, c)
      ensures s == t && i == j
    {
      LineInOrder(padded[s], p[..s], p[s]);
      LineInOrder(padded[t], p[..t], p[t]);
      FreeAt(padded, p, s, i);
      FreeAt(padded, p, t, j);
      if i >= |g[s]| {
        BlankAlone(p, s, i, t, j, row, c);
      } else if j >= |g[t]| {
        BlankAlone(p, t, j, s, i, row, c);
      } else {
        SameCovers(g, p, s, i, row, c);
        SameCovers(g, p, t, j, row, c);
        Together(g, s, i, t, j, row, c);
      }
    }
    IsApart(p);
  }

  lemma FreeAt(rows: seq<seq<TableCell>>, p: Grid, s: nat, i: nat)
    requires IsLayout(rows, p) && s < |p| && i < |p[s]|
    ensures FirstFree(p[..s], p[s][..i], p[s][i].column)
  {
    assert LaidOut(rows[s], p[..s], p[s]);
  }

  lemma SameCovers(g: Grid, p: Grid, s: nat, i: nat, row: nat, c: nat)
    requires Blanked(g, p) && s < |g| && i < |g[s]|
    ensures i < |p[s]| && p[s][i] == g[s][i]
    ensures Covers(p, s, i, row, c) <==> Covers(g, s, i, row, c)
  {
  }

  // ----- padded, every row is as wide as the widest -----

  lemma PlainBlanks(row: seq<TableCell>, n: nat)
    requires PlainSpans([row])
    ensures PlainSpans([row + Blanks(n)])
  {
    var more := row + Blanks(n);
    forall i | 0 <= i < |more|
      ensures more[i].colspan >= 1 && more[i].rowspan >= 1
    {
      assert i < |row| ==> [row][0][i] == more[i];
    }
  }

  lemma {:induction false} ReachBlanks(row: seq<TableCell>, n: nat, need: nat)
    requires PlainSpans([row])
    ensures PlainSpans([row + Blanks(n)])
    ensures Reach(row + Blanks(n), need) == Reach(row, need) + if need == 0 then n else 0
    decreases n
  {
    PlainBlanks(row, n);
    if n == 0 {
      assert row + Blanks(0) == row;
    } else {
      var more := row + Blanks(n);
      ReachBlanks(row, n - 1, need);
      assert more[..|more| - 1] == row + Blanks(n - 1);
      assert more[|more| - 1] == Blank();
    }
  }

  lemma PlainPadded(rows: seq<seq<TableCell>>, target: nat, padded: seq<seq<TableCell>>)
    requires PlainSpans(rows) && IsPadded(rows, target, padded)
    ensures PlainSpans(padded)
  {
    hide RowWidth;
    forall r | 0 <= r < |padded|
      ensures PlainSpans([padded[r]])
    {
      OneRow(rows, r);
      PlainBlanks(rows[r], target - RowWidth(rows, r));
    }
    forall r, i | 0 <= r < |padded| && 0 <= i < |padded[r]|
      ensures padded[r][i].colspan >= 1 && padded[r][i].rowspan >= 1
    {
      assert [padded[r]][0][i] == padded[r][i];
    }
  }

  lemma {:induction false} WidthAbove(rows: seq<seq<TableCell>>, target: nat, padded: seq<seq<TableCell>>, index: nat, n: nat)
    requires PlainSpans(rows) && IsPadded(rows, target, padded) && PlainSpans(padded)
    requires n <= index < |rows|
    ensures WidthUpTo(padded, index, n) == WidthUpTo(rows, index, n)
    decreases n
  {
    hide Reach, RowWidth;
    if n > 0 {
      WidthAbove(rows, target, padded, index, n - 1);
      OneRow(rows, n - 1);
      OneRow(padded, n - 1);
      ReachBlanks(rows[n - 1], target - RowWidth(rows, n - 1), index - (n - 1));
    }
  }

  lemma PaddedWidth(rows: seq<seq<TableCell>>, target: nat, padded: seq<seq<TableCell>>, index: nat)
    requires PlainSpans(rows) && IsPadded(rows, target, padded) && PlainSpans(padded) && index < |rows|
    ensures WidthUpTo(padded, index, index + 1) == target
  {
    WidthAbove(rows, target, padded, index, index);
    OneRow(rows, index);
    OneRow(padded, index);
    ReachBlanks(rows[index], target - RowWidth(rows, index), 0);
    hide Reach;
  }

  lemma SubsetSize(a: set<nat>, b: set<nat>)
    requires a <= b
    ensures |a| <= |b| && (|a| == |b| ==> a == b)
  {
    UnionSize(a, b - a);
    assert a + (b - a) == b;
  }

  lemma CoveredIsColumn(p: Grid, row: nat, c: nat)
    requires row < |p|
    ensures Covered(p, row, c) <==> c in ColumnsUpTo(p, row, row + 1)
  {
    InColumnsUpTo(p, row, row + 1, c);
    hide ColumnsUpTo;
  }

  // No line of the padded table ends past its width.
  lemma LineEnds(padded: seq<seq<TableCell>>, p: Grid, row: nat, target: nat)
    requires IsLayout(padded, p) && row < |p| && |RowColumns(p, row)| == target
    ensures EndOf(p[row]) <= target
  {
    hide Covered, Columns, ColumnsUpTo, EndOf;
    var columns := RowColumns(p, row);
    forall c: nat | c < EndOf(p[row])
      ensures c in columns
    {
      assert p[row][..|p[row]|] == p[row];
      NoGaps(padded[row], p[..row], p[row], |p[row]|, c);
      MoreCovered(p[..row] + [p[row]], p, row, c);
      CoveredIsColumn(p, row, c);
    }
    SubsetSize(Interval(0, EndOf(p[row])), columns);
  }

  lemma PaddedCovered(padded: seq<seq<TableCell>>, p: Grid, row: nat, target: nat, c: nat)
    requires IsLayout(padded, p) && row < |p|
    requires forall r: nat :: r < |p| ==> |RowColumns(p, r)| == target
    ensures Covered(p, row, c) <==> c < target
  {
    hide LaidOut, ColumnsUpTo;
    var columns := RowColumns(p, row);
    forall d: nat | d in columns
      ensures d < target
    {
      CoveredIsColumn(p, row, d);
      var s: nat, i: nat :| s < |p| && i < |p[s]| && Covers(p, s, i, row, d);
      LineEnds(padded, p, s, target);
      LineInOrder(padded[s], p[..s], p[s]);
      WithinEnd(p[s], i);
    }
    SubsetSize(columns, Interval(0, target));
    CoveredIsColumn(p, row, c);
  }

  lemma WithinEnd(line: seq<Spot>, i: nat)
    requires Ordered(line) && i < |line|
    ensures line[i].column + Across(line[i].cell) <= EndOf(line)
  {
  }

  lemma CellsOfLayout(rows: seq<seq<TableCell>>, p: Grid)
    requires IsLayout(rows, p)
    ensures CellRows(p) == rows
  {
    hide Covered;
    forall r | 0 <= r < |rows|
      ensures CellsOf(p[r]) == rows[r]
    {
      assert LaidOut(rows[r], p[..r], p[r]);
    }
  }

  // ----- the theorem -----

  lemma PaddingRepairs(rows: seq<seq<TableCell>>, target: nat, padded: seq<seq<TableCell>>, g: Grid, p: Grid)
    requires PlainSpans(rows) && IsPadded(rows, target, padded) && IsLayout(rows, g) && IsLayout(padded, p)
    requires Apart(g) && Inner(g)
    ensures Tiles(p, seq(|rows|, i => target))
  {
    PaddedLayout(rows, target, padded, g, p);
    PaddedApart(padded, g, p);
    PlainPadded(rows, target, padded);
    CellsOfLayout(padded, p);
    hide Covered, Apart, LaidOut, RowWidth, ColumnsUpTo;
    forall r: nat | r < |p|
      ensures Ordered(p[r])
    {
      LineInOrder(padded[r], p[..r], p[r]);
    }
    forall r: nat | r < |p|
      ensures |RowColumns(p, r)| == target
    {
      WidthCounts(p, r, r + 1);
      PaddedWidth(rows, target, padded, r);
    }
    forall row: nat, c: nat | row < |p|
      ensures Covered(p, row, c) <==> c < target
    {
      PaddedCovered(padded, p, row, target, c);
    }
    assert Inner(p);
  }

  // Padded, a table of any rows tiles its grid exactly when the layout of the
  // rows themselves lays no cell over another and lets none reach past the end.
  lemma PaddingRepairsExactly(rows: seq<seq<TableCell>>, target: nat, padded: seq<seq<TableCell>>, g: Grid, p: Grid)
    requires PlainSpans(rows) && IsPadded(rows, target, padded) && IsLayout(rows, g) && IsLayout(padded, p)
    ensures Tiles(p, seq(|rows|, i => target)) <==> Apart(g) && Inner(g)
  {
    PaddedLayout(rows, target, padded, g, p);
    if Apart(g) && Inner(g) {
      PaddingRepairs(rows, target, padded, g, p);
    }
    hide Covered, LaidOut, RowWidth, Covers, IsPadded;
    if Tiles(p, seq(|rows|, i => target)) {
      assert Inner(g) by {
        forall r: nat, i: nat | r < |g| && i < |g[r]|
          ensures r + Down(g[r][i].cell) <= |g|
        {
          SameCovers(g, p, r, i, 0, 0);
        }
      }
      forall s: nat, i: nat, t: nat, j: nat, row: nat, c: nat |
        s < |g| && i < |g[s]| && t < |g| && j < |g[t]| && Covers(g, s, i, row, c) && Covers(g, t, j, row, c)
        ensures s == t && i == j
      {
        SameCovers(g, p, s, i, row, c);
        SameCovers(g, p, t, j, row, c);
        Together(p, s, i, t, j, row, c);
      }
      IsApart(g);
    }
  }

  // ----- Word tables -----

  lemma KeptPlain(g: Grid, headers: seq<bool>, n: nat)
    requires n <= |g| == |headers| && Inner(g)
    ensures PlainSpans(CellRows(KeptLines(g, headers, n)))
    decreases n
  {
    if n > 0 && g[n - 1] != [] {
      KeptPlain(g, headers, n - 1);
      var before, line := KeptLines(g, headers, n - 1), ShrunkLine(g, headers, n - 1);
      forall i | 0 <= i < |line|
        ensures line[i].cell.rowspan >= 1
      {
        EndsWith(g, n - 1, n - 1 + Down(g[n - 1][i].cell));
      }
      PlainMore(CellRows(before), CellsOf(line));
      assert CellRows(before + [line]) == CellRows(before) + [CellsOf(line)];
    } else if n > 0 {
      KeptPlain(g, headers, n - 1);
    }
  }

  lemma {:induction false} EndsWith(g: Grid, from: nat, end: nat)
    requires from < end <= |g| && g[from] != []
    ensures StartingRows(g, from, end) >= 1
    decreases end
  {
    if from < end - 1 {
      EndsWith(g, from, end - 1);
    }
  }

  lemma PlainMore(rows: seq<seq<TableCell>>, row: seq<TableCell>)
    requires PlainSpans(rows) && forall i :: 0 <= i < |row| ==> row[i].colspan >= 1 && row[i].rowspan >= 1
    ensures PlainSpans(rows + [row])
  {
  }

  // The Word table of a tiling, read and padded, lays out as a full grid.
  lemma ReadTableNeedsNoRepair(g: Grid, widths: seq<nat>, rows: seq<WordRow>, target: nat,
                               padded: seq<seq<TableCell>>, p: Grid)
    requires Tiles(g, widths) && IsWordTable(g, widths, rows)
    requires PlainSpans(Imported(rows)) && IsPadded(Imported(rows), target, padded) && IsLayout(padded, p)
    ensures Tiles(p, seq(|padded|, i => target))
  {
    var headers := seq(|rows|, r requires 0 <= r < |rows| => rows[r].header);
    TilesInside(g, widths);
    hide Tiles, Imported, KeptLines, KeptWidths, IsLayout, IsWordTable, PlainSpans, IsPadded, Inner;
    assert |rows| == |g| by {
      WordTableSize(g, widths, rows);
    }
    ReadBack(g, widths, headers, rows);
    KeptTiles(g, widths, headers);
    var h, kept := KeptLines(g, headers, |g|), KeptWidths(g, widths, |g|);
    var width := MaxOf(kept);
    LayoutRecovers(h, kept, width);
    TilesInside(h, kept);
    assert Apart(h) by {
      TilesApart(h, kept);
    }
    assert |padded| == |Imported(rows)| by {
      PaddedSize(Imported(rows), target, padded);
    }
    PaddingRepairs(Imported(rows), target, padded, h, p);
  }

  lemma WordTableSize(g: Grid, widths: seq<nat>, rows: seq<WordRow>)
    requires IsWordTable(g, widths, rows)
    ensures |rows| == |g|
  {
  }

  lemma TilesApart(g: Grid, widths: seq<nat>)
    requires Tiles(g, widths)
    ensures Apart(g)
  {
  }

  lemma PaddedSize(rows: seq<seq<TableCell>>, target: nat, padded: seq<seq<TableCell>>)
    requires PlainSpans(rows) && IsPadded(rows, target, padded)
    ensures |padded| == |rows|
  {
  }

  lemma MaxOf(widths: seq<nat>) returns (width: nat)
    ensures IsMax(widths, width)
  {
    width := 0;
    for i := 0 to |widths|
      invariant forall r :: 0 <= r < i ==> widths[r] <= width
      invariant width == 0 || width in widths
    {
      if widths[i] > width {
        width := widths[i];
      }
    }
  }

  // Columns skipped at the start of a row are forgotten, and cells of later
  // rows can then be laid over those that reach into them.
  lemma SkippedLayout(g: Grid, first: TableCell, tall: TableCell, over: TableCell)
    requires g == [[Spot(0, first), Spot(1, tall)], [Spot(0, over)]]
    requires Across(first) == Down(first) == Across(tall) == 1
    ensures IsLayout([[first, tall], [over]], g)
  {
    assert g[0][..0] == [] && g[0][..1] == [Spot(0, first)] && g[1][..0] == [];
    assert !Covered(g[..0], 0, 0) && !Covered(g[..0], 0, 1);
    assert g[..1] == [g[0]];
    assert !Covered(g[..1], 1, 0);
    assert LaidOut([first, tall], g[..0], g[0]);
    assert LaidOut([over], g[..1], g[1]);
  }

  // Two rows, the first of which skips a column.
  function Skipping(content: seq<Node>): seq<WordRow> {
    [WordRow(false, 1, [WordCell(1, Unmerged, content), WordCell(1, Restart, content)]),
     WordRow(false, 0, [WordCell(2, Unmerged, content), WordCell(1, Continue, content)])]
  }

  lemma SkippedOpen(content: seq<Node>)
    ensures var rows := Skipping(content);
            && StartOf(rows[0], 0) == 1 && StartOf(rows[0], 1) == 2 && At(rows[0], 0) == None
            && StartOf(rows[1], 0) == 0 && StartOf(rows[1], 1) == 2 && At(rows[1], 1) == None && At(rows[1], 2) == Some(1)
            && !Joins(rows, 0, 0) && !Joins(rows, 0, 1) && !Joins(rows, 1, 0)
            && OpenAt(rows, 1, 2) == Some((0, 1)) && Joins(rows, 1, 1)
  {
    var rows := Skipping(content);
    assert StartOf(rows[0], 0) == 1 && StartOf(rows[0], 1) == 2;
    assert StartOf(rows[1], 0) == 0 && StartOf(rows[1], 1) == 2;
    assert At(rows[0], 2) == Some(1) && At(rows[0], 0) == None && At(rows[1], 2) == Some(1) && At(rows[1], 1) == None;
    assert OpenAt(rows, 0, 1) == None && OpenAt(rows, 0, 2) == None;
    assert !Joins(rows, 0, 0) && !Joins(rows, 0, 1) && !Joins(rows, 1, 0);
  }

  lemma SkippedKept(content: seq<Node>)
    ensures var rows := Skipping(content);
            && Kept(rows, 2) == [[(0, 0), (0, 1)], [(1, 0)]]
            && OwnIn(rows, 1) == [(1, 0)]
  {
    SkippedOpen(content);
    hide Joins, OpenAt, StartOf, StartsAt;
    var rows := Skipping(content);
    assert Own(rows, 0, 1) == [(0, 0)] && OwnIn(rows, 0) == [(0, 0), (0, 1)];
    assert Own(rows, 1, 1) == [(1, 0)] && OwnIn(rows, 1) == [(1, 0)];
    assert Kept(rows, 1) == [OwnIn(rows, 0)];
  }

  lemma SkippedHeights(content: seq<Node>)
    ensures var rows := Skipping(content);
            Height(rows, (0, 0), 2) == 1 && Height(rows, (0, 1), 2) == 2 && Height(rows, (1, 0), 2) == 1
  {
    SkippedOpen(content);
    SkippedKept(content);
    hide Joins, OpenAt, StartOf, StartsAt, Own, Kept;
    var rows := Skipping(content);
    assert !Extends(rows, 1, (0, 0)) && Extends(rows, 1, (0, 1));
  }

  lemma SkippedRead(content: seq<Node>)
    ensures var c := Filled(content);
            Imported(Skipping(content))
            == [[TableCell(false, c, 1, 1), TableCell(false, c, 1, 2)], [TableCell(false, c, 2, 1)]]
  {
    SkippedKept(content);
    SkippedHeights(content);
    hide Filled, Kept, Height, Own;
    var rows, c := Skipping(content), Filled(content);
    assert Imported(rows)[0] == [TableCell(false, c, 1, 1), TableCell(false, c, 1, 2)];
    assert Imported(rows)[1] == [TableCell(false, c, 2, 1)];
  }

  // Columns skipped at the start of a row are forgotten, and cells of later
  // rows can then be laid over those that reach into them.
  lemma SkippedColumnsNeedRepair(content: seq<Node>) returns (rows: seq<WordRow>, g: Grid)
    ensures var table := Imported(rows);
            PlainSpans(table) && IsLayout(table, g) && !Apart(g)
  {
    rows := Skipping(content);
    SkippedRead(content);
    hide Imported, Filled;
    var c := Filled(content);
    var first, tall, over := TableCell(false, c, 1, 1), TableCell(false, c, 1, 2), TableCell(false, c, 2, 1);
    g := [[Spot(0, first), Spot(1, tall)], [Spot(0, over)]];
    assert Covers(g, 0, 1, 1, 1) && Covers(g, 1, 0, 1, 1);
    SkippedLayout(g, first, tall, over);
  }
}
