// Word tables read back: a cell merged downwards continues, row by row, the
// cell that is open at its column.
module TableReader {
  import opened Wrappers
  import opened Tree
  import opened Tables

  datatype Merge = Unmerged | Restart | Continue

  datatype WordCell = WordCell(span: int, merge: Merge, content: seq<Node>)

  // `before` columns are skipped at the start of the row.
  datatype WordRow = WordRow(header: bool, before: nat, cells: seq<WordCell>)

  // A cell of the Word table, by row and place in its row.
  type Origin = (nat, nat)

  function StartOf(row: WordRow, j: nat): nat
    requires j <= |row.cells|
  {
    if j == 0 then row.before else StartOf(row, j - 1) + AtLeastOne(row.cells[j - 1].span)
  }

  // The cell that starts at a column, among the first `n`.
  function StartsAt(row: WordRow, column: nat, n: nat): (j: Option<nat>)
    requires n <= |row.cells|
    ensures j.Some? ==> j.value < n && StartOf(row, j.value) == column
  {
    if n == 0 then None
    else if StartOf(row, n - 1) == column then Some(n - 1)
    else StartsAt(row, column, n - 1)
  }

  function At(row: WordRow, column: nat): Option<nat> {
    StartsAt(row, column, |row.cells|)
  }

  predicate IsCell(rows: seq<WordRow>, o: Origin, n: nat)
    requires n <= |rows|
  {
    o.0 < n && o.1 < |rows[o.0].cells|
  }

  // The cell that the rows before `r` leave open at a column.
  function OpenAt(rows: seq<WordRow>, r: nat, column: nat): (o: Option<Origin>)
    requires r <= |rows|
    ensures o.Some? ==> IsCell(rows, o.value, r) && StartOf(rows[o.value.0], o.value.1) == column
    decreases r, 0
  {
    if r == 0 then None
    else
      match At(rows[r - 1], column)
      case None => OpenAt(rows, r - 1, column)
      case Some(j) =>
        if Joins(rows, r - 1, j) then OpenAt(rows, r - 1, column)
        else if rows[r - 1].cells[j].merge.Unmerged? then None
        else Some((r - 1, j))
  }

  predicate Joins(rows: seq<WordRow>, r: nat, j: nat)
    requires r < |rows| && j < |rows[r].cells|
    decreases r, 1
  {
    rows[r].cells[j].merge.Continue? && OpenAt(rows, r, StartOf(rows[r], j)).Some?
  }

  // The cells of a row that join none above it, among the first `j`.
  function Own(rows: seq<WordRow>, r: nat, j: nat): (own: seq<Origin>)
    requires r < |rows| && j <= |rows[r].cells|
    ensures forall i :: 0 <= i < |own| ==> own[i].0 == r && own[i].1 < j
  {
    if j == 0 then []
    else if Joins(rows, r, j - 1) then Own(rows, r, j - 1)
    else Own(rows, r, j - 1) + [(r, j - 1)]
  }

  function OwnIn(rows: seq<WordRow>, r: nat): seq<Origin>
    requires r < |rows|
  {
    Own(rows, r, |rows[r].cells|)
  }

  // Row `r` continues the cell.
  predicate Extends(rows: seq<WordRow>, r: nat, o: Origin)
    requires r < |rows| && IsCell(rows, o, r)
  {
    var column := StartOf(rows[o.0], o.1);
    var j := At(rows[r], column);
    j.Some? && Joins(rows, r, j.value) && OpenAt(rows, r, column) == Some(o)
  }

  // How many of the first `n` rows that have a cell of their own a cell spans.
  function Height(rows: seq<WordRow>, o: Origin, n: nat): (h: nat)
    requires n <= |rows| && IsCell(rows, o, |rows|)
    ensures h >= 1
  {
    if n <= o.0 + 1 then 1
    else Height(rows, o, n - 1) + (if Extends(rows, n - 1, o) && OwnIn(rows, n - 1) != [] then 1 else 0)
  }

  function BlankContent(): seq<Node> {
    [Elem(Paragraph, map[], [], [])]
  }

  function Filled(content: seq<Node>): seq<Node> {
    if content == [] then BlankContent() else content
  }

  function CellOf(rows: seq<WordRow>, o: Origin, n: nat): TableCell
    requires n <= |rows| && IsCell(rows, o, |rows|)
  {
    var cell := rows[o.0].cells[o.1];
    TableCell(rows[o.0].header, Filled(cell.content), AtLeastOne(cell.span), Height(rows, o, n))
  }

  // The rows, among the first `n`, with a cell of their own.
  function Kept(rows: seq<WordRow>, n: nat): (kept: seq<seq<Origin>>)
    requires n <= |rows|
    ensures forall k, i :: 0 <= k < |kept| && 0 <= i < |kept[k]| ==> IsCell(rows, kept[k][i], n)
  {
    if n == 0 then []
    else if OwnIn(rows, n - 1) == [] then Kept(rows, n - 1)
    else Kept(rows, n - 1) + [OwnIn(rows, n - 1)]
  }

  function Imported(rows: seq<WordRow>): seq<seq<TableCell>> {
    var kept := Kept(rows, |rows|);
    seq(|kept|, k requires 0 <= k < |kept| =>
      seq(|kept[k]|, i requires 0 <= i < |kept[k]| => CellOf(rows, kept[k][i], |rows|)))
  }

  // ----- where cells start -----

  lemma {:induction false} StartsRise(row: WordRow, i: nat, j: nat)
    requires i < j <= |row.cells|
    ensures StartOf(row, i) < StartOf(row, j)
    decreases j
  {
    if i < j - 1 {
      StartsRise(row, i, j - 1);
    }
  }

  lemma {:induction false} FoundAt(row: WordRow, j: nat, n: nat)
    requires j < n <= |row.cells|
    ensures StartsAt(row, StartOf(row, j), n) == Some(j)
    decreases n
  {
    if j < n - 1 {
      StartsRise(row, j, n - 1);
      FoundAt(row, j, n - 1);
    }
  }

  // A cell is open at its column if it began or went on a merge, and the later
  // cells there, if any, all join one above them.
  predicate LeftOpen(rows: seq<WordRow>, r: nat, column: nat, o: Origin)
    requires r <= |rows|
  {
    && IsCell(rows, o, r) && StartOf(rows[o.0], o.1) == column
    && !rows[o.0].cells[o.1].merge.Unmerged? && !Joins(rows, o.0, o.1)
    && forall t, j :: o.0 < t < r && 0 <= j < |rows[t].cells| && StartOf(rows[t], j) == column ==> Joins(rows, t, j)
  }

  // A cell joins exactly when it goes on a merge, and one above it is left open.
  lemma {:induction false} OpenExactly(rows: seq<WordRow>, r: nat, column: nat)
    requires r <= |rows|
    ensures forall o: Origin :: OpenAt(rows, r, column) == Some(o) <==> LeftOpen(rows, r, column, o)
    decreases r
  {
    if r > 0 {
      OpenExactly(rows, r - 1, column);
      forall o: Origin
        ensures OpenAt(rows, r, column) == Some(o) <==> LeftOpen(rows, r, column, o)
      {
        OpenNext(rows, r, column, o);
      }
    }
  }

  lemma OpenNext(rows: seq<WordRow>, r: nat, column: nat, o: Origin)
    requires 0 < r <= |rows|
    requires OpenAt(rows, r - 1, column) == Some(o) <==> LeftOpen(rows, r - 1, column, o)
    ensures OpenAt(rows, r, column) == Some(o) <==> LeftOpen(rows, r, column, o)
  {
    hide StartsAt, StartOf, Joins;
    var row := rows[r - 1];
    NoneElse(row, column);
    if IsCell(rows, o, r) && o.0 == r - 1 && StartOf(row, o.1) == column {
      FoundAt(row, o.1, |row.cells|);
    }
  }

  // No two cells of a row start at a column.
  lemma NoneElse(row: WordRow, column: nat)
    ensures forall j :: 0 <= j < |row.cells| && StartOf(row, j) == column ==> At(row, column) == Some(j)
  {
    forall j | 0 <= j < |row.cells| && StartOf(row, j) == column
      ensures At(row, column) == Some(j)
    {
      FoundAt(row, j, |row.cells|);
    }
  }

  // Nothing starts inside a cell, before the first or past the last.
  lemma NothingInside(row: WordRow, j: nat, column: nat)
    requires j < |row.cells| && StartOf(row, j) < column < StartOf(row, j + 1)
    ensures At(row, column).None?
  {
    var k := At(row, column);
    if k.Some? {
      if k.value < j {
        StartsRise(row, k.value, j);
      } else if k.value > j + 1 {
        StartsRise(row, j + 1, k.value);
      }
      assert false;
    }
  }

  lemma NothingOutside(row: WordRow, column: nat)
    requires column < row.before || column >= StartOf(row, |row.cells|)
    ensures At(row, column).None?
  {
    var k := At(row, column);
    if k.Some? {
      StartsRise(row, k.value, |row.cells|);
      if k.value > 0 {
        StartsRise(row, 0, k.value);
      }
      assert false;
    }
  }

  // ----- reading -----

  // Cells are known by number; `origins` says which Word cell each stands for.
  ghost predicate Numbered(rows: seq<WordRow>, n: nat, cells: seq<TableCell>, origins: seq<Origin>)
    requires n <= |rows|
  {
    && |cells| == |origins|
    && (forall id :: 0 <= id < |origins| ==> IsCell(rows, origins[id], n))
    && (forall i, j :: 0 <= i < j < |origins| ==> origins[i] != origins[j])
  }

  ghost predicate Heights(rows: seq<WordRow>, r: nat, cells: seq<TableCell>, origins: seq<Origin>, more: seq<nat>)
    requires r <= |rows| && |cells| == |origins|
    requires forall id :: 0 <= id < |origins| ==> IsCell(rows, origins[id], |rows|)
  {
    forall id :: 0 <= id < |cells| ==>
      var cell := CellOf(rows, origins[id], r);
      cells[id] == if id in more then cell.(rowspan := cell.rowspan + 1) else cell
  }

  // The first `j` cells of row `r` have been read.
  function Now(rows: seq<WordRow>, r: nat, j: nat, column: nat): Option<Origin>
    requires r < |rows| && j <= |rows[r].cells|
  {
    OpenAt(rows, if column < StartOf(rows[r], j) then r + 1 else r, column)
  }

  ghost predicate IsOpen(rows: seq<WordRow>, r: nat, j: nat, open: map<nat, nat>, origins: seq<Origin>)
    requires r < |rows| && j <= |rows[r].cells|
  {
    forall column: nat ::
      && (column in open <==> Now(rows, r, j, column).Some?)
      && (column in open ==> open[column] < |origins| && Now(rows, r, j, column) == Some(origins[open[column]]))
  }

  ghost predicate JoinedBy(rows: seq<WordRow>, r: nat, j: nat, o: Origin)
    requires r < |rows| && j <= |rows[r].cells|
  {
    exists k :: 0 <= k < j && Joins(rows, r, k) && OpenAt(rows, r, StartOf(rows[r], k)) == Some(o)
  }

  ghost predicate Extended(rows: seq<WordRow>, r: nat, j: nat, origins: seq<Origin>, extended: seq<nat>)
    requires r < |rows| && j <= |rows[r].cells|
  {
    && (forall id :: 0 <= id < |origins| ==> (id in extended <==> JoinedBy(rows, r, j, origins[id])))
    && (forall i :: 0 <= i < |extended| ==> extended[i] < |origins|)
    && (forall i, k :: 0 <= i < k < |extended| ==> extended[i] != extended[k])
  }

  ghost predicate StandFor(ids: seq<nat>, origins: seq<Origin>, own: seq<Origin>) {
    |ids| == |own| && forall i :: 0 <= i < |ids| ==> ids[i] < |origins| && origins[ids[i]] == own[i]
  }

  ghost predicate Midway(rows: seq<WordRow>, r: nat, j: nat, cells: seq<TableCell>, origins: seq<Origin>,
                         open: map<nat, nat>, extended: seq<nat>, ids: seq<nat>)
    requires r < |rows| && j <= |rows[r].cells|
  {
    && Numbered(rows, r + 1, cells, origins)
    && Heights(rows, r, cells, origins, extended)
    && IsOpen(rows, r, j, open, origins)
    && Extended(rows, r, j, origins, extended)
    && StandFor(ids, origins, Own(rows, r, j))
  }

  lemma NowAfter(rows: seq<WordRow>, r: nat, j: nat, column: nat)
    requires r < |rows| && j < |rows[r].cells|
    ensures column != StartOf(rows[r], j) ==> Now(rows, r, j + 1, column) == Now(rows, r, j, column)
    ensures column == StartOf(rows[r], j) ==>
              Now(rows, r, j, column) == OpenAt(rows, r, column) && Now(rows, r, j + 1, column)
              == if Joins(rows, r, j) then OpenAt(rows, r, column)
                 else if rows[r].cells[j].merge.Unmerged? then None
                 else Some((r, j))
  {
    var row := rows[r];
    StartsRise(row, j, j + 1);
    if column == StartOf(row, j) {
      FoundAt(row, j, |row.cells|);
    } else if StartOf(row, j) < column < StartOf(row, j + 1) {
      NothingInside(row, j, column);
    }
  }

  lemma NowAtFirst(rows: seq<WordRow>, r: nat, column: nat)
    requires r < |rows|
    ensures Now(rows, r, 0, column) == OpenAt(rows, r, column)
    ensures Now(rows, r, |rows[r].cells|, column) == OpenAt(rows, r + 1, column)
  {
    if column < rows[r].before || column >= StartOf(rows[r], |rows[r].cells|) {
      NothingOutside(rows[r], column);
    }
  }

  // A cell that joins the one open above it.
  lemma JoinedOne(rows: seq<WordRow>, r: nat, j: nat, cells: seq<TableCell>, origins: seq<Origin>,
                  open: map<nat, nat>, extended: seq<nat>, ids: seq<nat>)
    requires r < |rows| && j < |rows[r].cells| && Midway(rows, r, j, cells, origins, open, extended, ids)
    requires Joins(rows, r, j)
    ensures var column := StartOf(rows[r], j);
            && column in open && open[column] < |cells|
            && var id := open[column];
               Midway(rows, r, j + 1, cells[id := cells[id].(rowspan := cells[id].rowspan + 1)],
                      origins, open, extended + [id], ids)
  {
    var column := StartOf(rows[r], j);
    NowAfter(rows, r, j, column);
    hide OpenAt, Height, StartsAt, StartOf, CellOf, Now;
    var id := open[column];
    assert OpenAt(rows, r, column) == Some(origins[id]);
    StillOpen(rows, r, j, open, origins);
    JoinedNext(rows, r, j, origins, extended, id);
    HeightsRaised(rows, r, cells, origins, extended, id);
  }

  lemma StillOpen(rows: seq<WordRow>, r: nat, j: nat, open: map<nat, nat>, origins: seq<Origin>)
    requires r < |rows| && j < |rows[r].cells| && IsOpen(rows, r, j, open, origins) && Joins(rows, r, j)
    ensures IsOpen(rows, r, j + 1, open, origins)
  {
    hide OpenAt, StartOf, Now, Joins;
    forall column: nat
      ensures Now(rows, r, j + 1, column) == Now(rows, r, j, column)
    {
      NowAfter(rows, r, j, column);
    }
  }

  lemma HeightsRaised(rows: seq<WordRow>, r: nat, cells: seq<TableCell>, origins: seq<Origin>, more: seq<nat>, id: nat)
    requires r <= |rows| && |cells| == |origins| && id < |cells| && id !in more
    requires forall id :: 0 <= id < |origins| ==> IsCell(rows, origins[id], |rows|)
    requires Heights(rows, r, cells, origins, more)
    ensures Heights(rows, r, cells[id := cells[id].(rowspan := cells[id].rowspan + 1)], origins, more + [id])
  {
    hide CellOf;
  }

  lemma NotYet(rows: seq<WordRow>, r: nat, j: nat, o: Origin)
    requires r < |rows| && j < |rows[r].cells| && OpenAt(rows, r, StartOf(rows[r], j)) == Some(o)
    ensures !JoinedBy(rows, r, j, o)
  {
    hide Joins;
    forall k | 0 <= k < j && OpenAt(rows, r, StartOf(rows[r], k)) == Some(o)
      ensures false
    {
      StartsRise(rows[r], k, j);
    }
  }

  lemma JoinedByNext(rows: seq<WordRow>, r: nat, j: nat, o: Origin)
    requires r < |rows| && j < |rows[r].cells|
    ensures JoinedBy(rows, r, j + 1, o) <==>
              JoinedBy(rows, r, j, o) || (Joins(rows, r, j) && OpenAt(rows, r, StartOf(rows[r], j)) == Some(o))
  {
    hide Joins, OpenAt, StartOf;
  }

  lemma JoinedNext(rows: seq<WordRow>, r: nat, j: nat, origins: seq<Origin>, extended: seq<nat>, id: nat)
    requires r < |rows| && j < |rows[r].cells| && Extended(rows, r, j, origins, extended) && Joins(rows, r, j)
    requires id < |origins| && OpenAt(rows, r, StartOf(rows[r], j)) == Some(origins[id])
    requires forall i, j :: 0 <= i < j < |origins| ==> origins[i] != origins[j]
    ensures id !in extended && Extended(rows, r, j + 1, origins, extended + [id])
  {
    hide OpenAt, StartOf, Joins, JoinedBy;
    NotYet(rows, r, j, origins[id]);
    forall i | 0 <= i < |origins|
      ensures i in extended + [id] <==> JoinedBy(rows, r, j + 1, origins[i])
    {
      JoinedByNext(rows, r, j, origins[i]);
    }
  }

  // A cell of its own: the next number is its.
  lemma OwnOne(rows: seq<WordRow>, r: nat, j: nat, cells: seq<TableCell>, origins: seq<Origin>,
               open: map<nat, nat>, extended: seq<nat>, ids: seq<nat>, cell: TableCell, open': map<nat, nat>)
    requires r < |rows| && j < |rows[r].cells| && Midway(rows, r, j, cells, origins, open, extended, ids)
    requires !Joins(rows, r, j)
    requires cell == CellOf(rows, (r, j), r)
    requires var column := StartOf(rows[r], j);
             open' == if rows[r].cells[j].merge.Unmerged? then open - {column} else open[column := |cells|]
    requires (r, j) !in origins
    ensures Midway(rows, r, j + 1, cells + [cell], origins + [(r, j)], open', extended, ids + [|cells|])
  {
    hide OpenAt, Height, StartsAt, StartOf, CellOf, Now, Joins;
    OwnOpen(rows, r, j, open, origins, open');
    NotJoinedNext(rows, r, j, origins, extended);
    assert Heights(rows, r, cells + [cell], origins + [(r, j)], extended);
  }

  lemma OwnOpen(rows: seq<WordRow>, r: nat, j: nat, open: map<nat, nat>, origins: seq<Origin>, open': map<nat, nat>)
    requires r < |rows| && j < |rows[r].cells| && IsOpen(rows, r, j, open, origins) && !Joins(rows, r, j)
    requires var column := StartOf(rows[r], j);
             open' == if rows[r].cells[j].merge.Unmerged? then open - {column} else open[column := |origins|]
    ensures IsOpen(rows, r, j + 1, open', origins + [(r, j)])
  {
    hide OpenAt, StartOf, Now, Joins;
    forall column: nat
      ensures column in open' <==> Now(rows, r, j + 1, column).Some?
      ensures column in open' ==> open'[column] < |origins| + 1
                                  && Now(rows, r, j + 1, column) == Some((origins + [(r, j)])[open'[column]])
    {
      NowAfter(rows, r, j, column);
    }
  }

  lemma NotJoinedNext(rows: seq<WordRow>, r: nat, j: nat, origins: seq<Origin>, extended: seq<nat>)
    requires r < |rows| && j < |rows[r].cells| && Extended(rows, r, j, origins, extended) && !Joins(rows, r, j)
    ensures Extended(rows, r, j + 1, origins + [(r, j)], extended)
  {
    hide OpenAt, StartOf, Joins, JoinedBy;
    var more := origins + [(r, j)];
    forall id | 0 <= id < |more|
      ensures id in extended <==> JoinedBy(rows, r, j + 1, more[id])
    {
      JoinedByNext(rows, r, j, more[id]);
      OnlyAbove(rows, r, j);
    }
  }

  // No cell joins one of its own row.
  lemma OnlyAbove(rows: seq<WordRow>, r: nat, j: nat)
    requires r < |rows| && j <= |rows[r].cells|
    ensures forall o: Origin :: JoinedBy(rows, r, j, o) ==> o.0 < r
  {
  }

  // ----- a row -----

  method ReadRow(rows: seq<WordRow>, r: nat, cells: seq<TableCell>, ghost origins: seq<Origin>, open: map<nat, nat>)
    returns (cells': seq<TableCell>, ghost origins': seq<Origin>, open': map<nat, nat>, extended: seq<nat>, ids: seq<nat>)
    requires r < |rows| && Numbered(rows, r, cells, origins) && Heights(rows, r, cells, origins, [])
    requires AllOpen(rows, r, open, origins)
    ensures Midway(rows, r, |rows[r].cells|, cells', origins', open', extended, ids)
    ensures origins <= origins'
  {
    hide OpenAt, StartOf, Joins, Height, Midway, Own, StartsAt;
    var row := rows[r];
    cells', origins', open', extended, ids := cells, origins, open, [], [];
    Begin(rows, r, cells, origins, open);
    var column := row.before;
    assert StartOf(row, 0) == column by {
      FirstStart(row);
    }
    for j := 0 to |row.cells|
      invariant column == StartOf(row, j) && origins <= origins'
      invariant forall id :: 0 <= id < |origins'| ==> origins'[id].0 < r || origins'[id].1 < j
      invariant Midway(rows, r, j, cells', origins', open', extended, ids)
    {
      var tc := row.cells[j];
      MidwayOpen(rows, r, j, cells', origins', open', extended, ids);
      NextStart(row, j);
      if tc.merge.Continue? && column in open' {
        JoinedOne(rows, r, j, cells', origins', open', extended, ids);
        var id := open'[column];
        cells' := cells'[id := cells'[id].(rowspan := cells'[id].rowspan + 1)];
        extended := extended + [id];
      } else {
        var cell := TableCell(row.header, Filled(tc.content), AtLeastOne(tc.span), 1);
        NewHeight(rows, r, j);
        ghost var was := open';
        var id := |cells'|;
        open' := if tc.merge.Unmerged? then open' - {column} else open'[column := id];
        OwnOne(rows, r, j, cells', origins', was, extended, ids, cell, open');
        cells', ids := cells' + [cell], ids + [id];
        origins' := origins' + [(r, j)];
      }
      column := column + AtLeastOne(tc.span);
    }
  }

  ghost predicate AllOpen(rows: seq<WordRow>, r: nat, open: map<nat, nat>, origins: seq<Origin>)
    requires r <= |rows|
  {
    forall column: nat ::
      && (column in open <==> OpenAt(rows, r, column).Some?)
      && (column in open ==> open[column] < |origins| && OpenAt(rows, r, column) == Some(origins[open[column]]))
  }

  lemma FirstStart(row: WordRow)
    ensures StartOf(row, 0) == row.before
  {
  }

  lemma NextStart(row: WordRow, j: nat)
    requires j < |row.cells|
    ensures StartOf(row, j + 1) == StartOf(row, j) + AtLeastOne(row.cells[j].span)
  {
  }

  lemma NewHeight(rows: seq<WordRow>, r: nat, j: nat)
    requires r < |rows| && j < |rows[r].cells|
    ensures Height(rows, (r, j), r) == 1
  {
  }

  lemma Begin(rows: seq<WordRow>, r: nat, cells: seq<TableCell>, origins: seq<Origin>, open: map<nat, nat>)
    requires r < |rows| && Numbered(rows, r, cells, origins) && Heights(rows, r, cells, origins, [])
    requires AllOpen(rows, r, open, origins)
    ensures Midway(rows, r, 0, cells, origins, open, [], [])
  {
    hide OpenAt, StartOf, Joins, Height, Now;
    forall column: nat
      ensures Now(rows, r, 0, column) == OpenAt(rows, r, column)
    {
      NowAtFirst(rows, r, column);
    }
  }

  // Whether the next cell joins shows in the cells that are open.
  lemma MidwayOpen(rows: seq<WordRow>, r: nat, j: nat, cells: seq<TableCell>, origins: seq<Origin>,
                   open: map<nat, nat>, extended: seq<nat>, ids: seq<nat>)
    requires r < |rows| && j < |rows[r].cells| && Midway(rows, r, j, cells, origins, open, extended, ids)
    ensures Joins(rows, r, j) <==> rows[r].cells[j].merge.Continue? && StartOf(rows[r], j) in open
    ensures |cells| == |origins|
  {
    NowAfter(rows, r, j, StartOf(rows[r], j));
    hide OpenAt, StartOf, Height, Now;
  }

  // ----- the table -----

  ghost predicate Read(rows: seq<WordRow>, r: nat, cells: seq<TableCell>, origins: seq<Origin>, open: map<nat, nat>,
                       out: seq<seq<nat>>)
    requires r <= |rows|
  {
    && Numbered(rows, r, cells, origins)
    && Heights(rows, r, cells, origins, [])
    && AllOpen(rows, r, open, origins)
    && |out| == |Kept(rows, r)|
    && forall k :: 0 <= k < |out| ==> StandFor(out[k], origins, Kept(rows, r)[k])
  }

  lemma HeightNext(rows: seq<WordRow>, r: nat, o: Origin)
    requires r < |rows| && IsCell(rows, o, r + 1)
    ensures Height(rows, o, r + 1)
            == Height(rows, o, r)
               + (if JoinedBy(rows, r, |rows[r].cells|, o) && OwnIn(rows, r) != [] then 1 else 0)
  {
    hide OpenAt, StartOf, Joins;
    var n := |rows[r].cells|;
    if o.0 < r {
      var column := StartOf(rows[o.0], o.1);
      if Extends(rows, r, o) {
        assert JoinedBy(rows, r, n, o);
      }
      if JoinedBy(rows, r, n, o) {
        var k :| 0 <= k < n && Joins(rows, r, k) && OpenAt(rows, r, StartOf(rows[r], k)) == Some(o);
        FoundAt(rows[r], k, n);
      }
    } else {
      OnlyAbove(rows, r, n);
    }
  }

  // A row with a cell of its own stays; the cells it continues are one higher.
  lemma RowKept(rows: seq<WordRow>, r: nat, cells: seq<TableCell>, origins: seq<Origin>, extended: seq<nat>)
    requires r < |rows| && Numbered(rows, r + 1, cells, origins) && Heights(rows, r, cells, origins, extended)
    requires Extended(rows, r, |rows[r].cells|, origins, extended) && OwnIn(rows, r) != []
    ensures Heights(rows, r + 1, cells, origins, [])
  {
    hide Height, JoinedBy, OwnIn;
    forall id | 0 <= id < |cells|
      ensures cells[id] == CellOf(rows, origins[id], r + 1)
    {
      HeightNext(rows, r, origins[id]);
    }
  }

  lemma RowDropped(rows: seq<WordRow>, r: nat, cells: seq<TableCell>, origins: seq<Origin>)
    requires r < |rows| && Numbered(rows, r + 1, cells, origins) && Heights(rows, r, cells, origins, [])
    requires OwnIn(rows, r) == []
    ensures Heights(rows, r + 1, cells, origins, [])
  {
    hide Height, JoinedBy, OwnIn;
    forall id | 0 <= id < |cells|
      ensures cells[id] == CellOf(rows, origins[id], r + 1)
    {
      HeightNext(rows, r, origins[id]);
    }
  }

  method Lower(cells: seq<TableCell>, extended: seq<nat>, ghost rows: seq<WordRow>, ghost r: nat,
               ghost origins: seq<Origin>)
    returns (lowered: seq<TableCell>)
    requires r < |rows| && Numbered(rows, r + 1, cells, origins) && Heights(rows, r, cells, origins, extended)
    requires forall i :: 0 <= i < |extended| ==> extended[i] < |cells|
    requires forall i, k :: 0 <= i < k < |extended| ==> extended[i] != extended[k]
    ensures |lowered| == |cells| && Heights(rows, r, lowered, origins, [])
  {
    hide CellOf;
    lowered := cells;
    assert extended[0..] == extended;
    for i := 0 to |extended|
      invariant |lowered| == |cells| && Heights(rows, r, lowered, origins, extended[i..])
    {
      var id := extended[i];
      assert extended[i..] == [id] + extended[i + 1..];
      assert id !in extended[i + 1..];
      lowered := lowered[id := lowered[id].(rowspan := lowered[id].rowspan - 1)];
    }
    assert extended[|extended|..] == [];
  }

  lemma Done(rows: seq<WordRow>, r: nat, open: map<nat, nat>, origins: seq<Origin>)
    requires r < |rows| && IsOpen(rows, r, |rows[r].cells|, open, origins)
    ensures AllOpen(rows, r + 1, open, origins)
  {
    hide OpenAt, StartOf, Now;
    forall column: nat
      ensures Now(rows, r, |rows[r].cells|, column) == OpenAt(rows, r + 1, column)
    {
      NowAtFirst(rows, r, column);
    }
  }

  method ReadTable(rows: seq<WordRow>) returns (table: seq<seq<TableCell>>)
    ensures table == Imported(rows)
  {
    var cells: seq<TableCell>, open: map<nat, nat>, out: seq<seq<nat>> := [], map[], [];
    ghost var origins: seq<Origin> := [];
    for r := 0 to |rows|
      invariant Read(rows, r, cells, origins, open, out)
    {
      hide OpenAt, StartOf, Joins, Height, Own, CellOf, IsOpen, Extended, AllOpen, Heights, Kept;
      ghost var before, kept := origins, Kept(rows, r);
      var extended, ids;
      cells, origins, open, extended, ids := ReadRow(rows, r, cells, origins, open);
      Done(rows, r, open, origins);
      KeptNext(rows, r);
      assert |ids| == |OwnIn(rows, r)|;
      StillStand(out, before, origins, kept);
      if ids != [] {
        RowKept(rows, r, cells, origins, extended);
        out := out + [ids];
      } else {
        ExtendedIds(rows, r, origins, extended);
        cells := Lower(cells, extended, rows, r, origins);
        RowDropped(rows, r, cells, origins);
      }
    }
    AllCollected(rows, cells, origins, open, out);
    table := Collected(cells, out);
  }

  predicate AreIds(cells: seq<TableCell>, out: seq<seq<nat>>) {
    forall k, i :: 0 <= k < |out| && 0 <= i < |out[k]| ==> out[k][i] < |cells|
  }

  function Collected(cells: seq<TableCell>, out: seq<seq<nat>>): seq<seq<TableCell>>
    requires AreIds(cells, out)
  {
    seq(|out|, k requires 0 <= k < |out| => seq(|out[k]|, i requires 0 <= i < |out[k]| => cells[out[k][i]]))
  }

  lemma AllCollected(rows: seq<WordRow>, cells: seq<TableCell>, origins: seq<Origin>, open: map<nat, nat>,
                     out: seq<seq<nat>>)
    requires Read(rows, |rows|, cells, origins, open, out)
    ensures AreIds(cells, out) && Collected(cells, out) == Imported(rows)
  {
    hide AllOpen, CellOf;
    var kept := Kept(rows, |rows|);
    forall k | 0 <= k < |out|
      ensures AreIds(cells, [out[k]]) && |out[k]| == |kept[k]|
      ensures forall i :: 0 <= i < |out[k]| ==> cells[out[k][i]] == CellOf(rows, kept[k][i], |rows|)
    {
      assert StandFor(out[k], origins, kept[k]);
    }
    assert forall k :: 0 <= k < |out| ==> Collected(cells, out)[k] == Imported(rows)[k];
  }

  lemma ExtendedIds(rows: seq<WordRow>, r: nat, origins: seq<Origin>, extended: seq<nat>)
    requires r < |rows| && Extended(rows, r, |rows[r].cells|, origins, extended)
    ensures forall i :: 0 <= i < |extended| ==> extended[i] < |origins|
    ensures forall i, k :: 0 <= i < k < |extended| ==> extended[i] != extended[k]
  {
  }

  lemma KeptNext(rows: seq<WordRow>, r: nat)
    requires r < |rows|
    ensures Kept(rows, r + 1) == if OwnIn(rows, r) == [] then Kept(rows, r) else Kept(rows, r) + [OwnIn(rows, r)]
  {
  }

  lemma StillStand(out: seq<seq<nat>>, before: seq<Origin>, origins: seq<Origin>, kept: seq<seq<Origin>>)
    requires before <= origins && |out| == |kept|
    requires forall k :: 0 <= k < |out| ==> StandFor(out[k], before, kept[k])
    ensures forall k :: 0 <= k < |out| ==> StandFor(out[k], origins, kept[k])
  {
  }
}
