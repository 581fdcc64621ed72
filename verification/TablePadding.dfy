// Rows padded to one width, and when that leaves the editor nothing to repair.
module TablePadding {
  import opened Tree
  import opened Tables
  import opened Tilings
  import opened TableReader
  import opened WordTables
  import opened TableRoundTrip

  predicate PlainSpans(rows: seq<seq<TableCell>>) {
    forall r, i :: 0 <= r < |rows| && 0 <= i < |rows[r]| ==> rows[r][i].colspan >= 1 && rows[r][i].rowspan >= 1
  }

  // The columns of the cells that reach past `need` rows.
  function Reach(row: seq<TableCell>, need: nat): (n: int)
    requires PlainSpans([row])
    ensures n >= 0
  {
    if row == [] then 0 else
      var last := row[|row| - 1];
      assert [row][0][|row| - 1] == last;
      ReachFront(row);
      Reach(row[..|row| - 1], need) + (if last.rowspan > need then last.colspan else 0)
  }

  lemma ReachFront(row: seq<TableCell>)
    requires row != [] && PlainSpans([row])
    ensures PlainSpans([row[..|row| - 1]])
  {
    forall i | 0 <= i < |row| - 1
      ensures row[i].colspan >= 1 && row[i].rowspan >= 1
    {
      assert [row][0][i] == row[i];
    }
  }

  // The width of a row, its own cells and those reaching into it, counting the
  // first `n` rows.
  function WidthUpTo(rows: seq<seq<TableCell>>, index: nat, n: nat): (w: int)
    requires PlainSpans(rows) && n <= index + 1 && n <= |rows|
    ensures w >= 0
  {
    if n == 0 then 0 else
      OneRow(rows, n - 1);
      WidthUpTo(rows, index, n - 1) + Reach(rows[n - 1], index - (n - 1))
  }

  lemma OneRow(rows: seq<seq<TableCell>>, r: nat)
    requires PlainSpans(rows) && r < |rows|
    ensures PlainSpans([rows[r]])
  {
  }

  function RowWidth(rows: seq<seq<TableCell>>, index: nat): int
    requires PlainSpans(rows) && index < |rows|
  {
    WidthUpTo(rows, index, index + 1)
  }

  function Blank(): TableCell {
    TableCell(false, BlankContent(), 1, 1)
  }

  function Blanks(n: nat): seq<TableCell> {
    seq(n, i => Blank())
  }

  // Plain cells of one column and row, each with an empty paragraph.
  predicate AddsBlanks(row: seq<TableCell>, padded: seq<TableCell>) {
    && row <= padded
    && forall i :: |row| <= i < |padded| ==>
         && !padded[i].header && padded[i].colspan == 1 && padded[i].rowspan == 1
         && padded[i].content == [Elem(Paragraph, map[], [], [])]
  }

  ghost predicate Widest(rows: seq<seq<TableCell>>, target: nat)
    requires PlainSpans(rows)
  {
    && (forall r :: 0 <= r < |rows| ==> RowWidth(rows, r) <= target)
    && (target == 0 || exists r :: 0 <= r < |rows| && RowWidth(rows, r) == target)
  }

  ghost predicate IsPadded(rows: seq<seq<TableCell>>, target: nat, padded: seq<seq<TableCell>>)
    requires PlainSpans(rows)
  {
    && |padded| == |rows|
    && forall r :: 0 <= r < |rows| ==>
         RowWidth(rows, r) <= target && padded[r] == rows[r] + Blanks(target - RowWidth(rows, r))
  }

  function Get(covered: map<nat, nat>, row: nat): nat {
    if row in covered then covered[row] else 0
  }

  method Spread(covered: map<nat, nat>, index: nat, row: seq<TableCell>)
    returns (covered': map<nat, nat>, width: nat)
    requires PlainSpans([row])
    ensures width == Get(covered, index) + Reach(row, 0)
    ensures forall later: nat :: later > index ==> Get(covered', later) == Get(covered, later) + Reach(row, later - index)
  {
    width := Get(covered, index);
    covered' := covered - {index};
    assert row[..0] == [];
    for i := 0 to |row|
      invariant PlainSpans([row[..i]])
      invariant width == Get(covered, index) + Reach(row[..i], 0)
      invariant forall later: nat :: later > index ==>
                  Get(covered', later) == Get(covered, later) + Reach(row[..i], later - index)
    {
      var cell := row[i];
      assert [row][0][i] == cell;
      ghost var before := covered';
      PlainPrefix(row, i + 1);
      for later := index + 1 to index + cell.rowspan
        invariant forall l: nat :: Get(covered', l) == Get(before, l) + if index < l < later then cell.colspan else 0
      {
        covered' := covered'[later := Get(covered', later) + cell.colspan];
      }
      width := width + cell.colspan;
      forall need: nat
        ensures Reach(row[..i + 1], need) == Reach(row[..i], need) + if cell.rowspan > need then cell.colspan else 0
      {
        assert row[..i + 1][..i] == row[..i];
      }
    }
    assert row[..|row|] == row;
  }

  lemma PlainPrefix(row: seq<TableCell>, n: nat)
    requires PlainSpans([row]) && n <= |row|
    ensures PlainSpans([row[..n]])
  {
    forall i | 0 <= i < n
      ensures row[i].colspan >= 1 && row[i].rowspan >= 1
    {
      assert [row][0][i] == row[i];
    }
  }

  lemma NextWidths(rows: seq<seq<TableCell>>, n: nat)
    requires PlainSpans(rows) && n < |rows| && PlainSpans([rows[n]])
    ensures forall later: nat :: later >= n ==>
              WidthUpTo(rows, later, n + 1) == WidthUpTo(rows, later, n) + Reach(rows[n], later - n)
  {
    hide Reach;
  }

  method Widths(rows: seq<seq<TableCell>>) returns (widths: seq<nat>)
    requires PlainSpans(rows)
    ensures |widths| == |rows| && forall r :: 0 <= r < |rows| ==> widths[r] == RowWidth(rows, r)
  {
    var covered: map<nat, nat> := map[];
    widths := [];
    for index := 0 to |rows|
      invariant |widths| == index
      invariant forall r :: 0 <= r < index ==> widths[r] == RowWidth(rows, r)
      invariant forall later: nat :: later >= index ==> Get(covered, later) == WidthUpTo(rows, later, index)
    {
      hide Reach, WidthUpTo, PlainSpans;
      OneRow(rows, index);
      NextWidths(rows, index);
      var width;
      covered, width := Spread(covered, index, rows[index]);
      widths := widths + [width];
    }
  }

  method Rectangular(rows: seq<seq<TableCell>>) returns (padded: seq<seq<TableCell>>)
    requires PlainSpans(rows)
    ensures exists target: nat :: Widest(rows, target) && IsPadded(rows, target, padded)
    ensures |padded| == |rows| && forall r :: 0 <= r < |rows| ==> AddsBlanks(rows[r], padded[r])
  {
    var widths := Widths(rows);
    var most := Most(widths);
    hide WidthUpTo, PlainSpans, AddsBlanks, Blanks;
    IsWidest(rows, widths, most);
    padded := [];
    for i := 0 to |rows|
      invariant |padded| == i
      invariant forall r :: 0 <= r < i ==> padded[r] == rows[r] + Blanks(most - widths[r])
    {
      padded := padded + [rows[i] + Blanks(most - widths[i])];
    }
    assert IsPadded(rows, most, padded);
    BlanksAdded(rows, most, padded);
  }

  method Most(widths: seq<nat>) returns (most: nat)
    ensures forall r :: 0 <= r < |widths| ==> widths[r] <= most
    ensures most == 0 || most in widths
  {
    most := 0;
    for i := 0 to |widths|
      invariant forall r :: 0 <= r < i ==> widths[r] <= most
      invariant most == 0 || most in widths
    {
      if widths[i] > most {
        most := widths[i];
      }
    }
  }

  lemma IsWidest(rows: seq<seq<TableCell>>, widths: seq<nat>, most: nat)
    requires PlainSpans(rows) && |widths| == |rows| && forall r :: 0 <= r < |rows| ==> widths[r] == RowWidth(rows, r)
    requires (forall r :: 0 <= r < |widths| ==> widths[r] <= most) && (most == 0 || most in widths)
    ensures Widest(rows, most)
  {
    hide PlainSpans, RowWidth;
    if most != 0 {
      var r :| 0 <= r < |widths| && widths[r] == most;
      assert RowWidth(rows, r) == most;
    }
  }

  lemma BlanksAdded(rows: seq<seq<TableCell>>, target: nat, padded: seq<seq<TableCell>>)
    requires PlainSpans(rows) && IsPadded(rows, target, padded)
    ensures |padded| == |rows| && forall r :: 0 <= r < |rows| ==> AddsBlanks(rows[r], padded[r])
  {
    hide RowWidth, PlainSpans;
  }
}
