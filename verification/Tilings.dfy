// Tables whose cells tile their rows, and what the layout makes of them.
module Tilings {
  import opened Tables

  ghost predicate Ordered(line: seq<Spot>) {
    forall i, j :: 0 <= i < j < |line| ==> line[i].column + Across(line[i].cell) <= line[j].column
  }

  // No place is covered twice.
  ghost predicate Apart(g: Grid) {
    forall r: nat, i: nat, s: nat, j: nat, row: nat, c: nat ::
      r < |g| && i < |g[r]| && s < |g| && j < |g[s]| && Covers(g, r, i, row, c) && Covers(g, s, j, row, c)
      ==> r == s && i == j
  }

  // The cells lie in the table and cover each row, up to its width, once.
  ghost predicate Tiles(g: Grid, widths: seq<nat>) {
    && |widths| == |g|
    && (forall r: nat :: r < |g| ==> Ordered(g[r]))
    && (forall r: nat, i: nat :: r < |g| && i < |g[r]| ==> r + Down(g[r][i].cell) <= |g|)
    && (forall row: nat, c: nat :: row < |g| ==> (Covered(g, row, c) <==> c < widths[row]))
    && Apart(g)
  }

  ghost predicate IsMax(widths: seq<nat>, width: nat) {
    && (forall r :: 0 <= r < |widths| ==> widths[r] <= width)
    && (width == 0 || width in widths)
  }

  // ----- the layout recovers a tiling -----

  lemma Together(g: Grid, r: nat, i: nat, s: nat, j: nat, row: nat, c: nat)
    requires Apart(g) && r < |g| && i < |g[r]| && s < |g| && j < |g[s]|
    requires Covers(g, r, i, row, c) && Covers(g, s, j, row, c)
    ensures r == s && i == j
  {
  }

  // What a row's cell starts on is free of the rows above, and everything from
  // the cell before it is not.
  lemma TileIsFirstFree(g: Grid, widths: seq<nat>, r: nat, i: nat)
    requires Tiles(g, widths) && r < |g| && i < |g[r]|
    ensures FirstFree(g[..r], g[r][..i], g[r][i].column)
  {
    var above, line, column := g[..r], g[r], g[r][i].column;
    assert Ordered(line);
    assert EndOf(line[..i]) <= column;
    if Covered(above, r, column) {
      var s: nat, j: nat :| s < |above| && j < |above[s]| && Covers(above, s, j, r, column);
      assert Covers(g, s, j, r, column) && Covers(g, r, i, r, column);
      Together(g, s, j, r, i, r, column);
      assert false;
    }
    assert Covers(g, r, i, r, column);
    assert Covered(g, r, column);
    forall c | EndOf(line[..i]) <= c < column
      ensures Covered(above, r, c)
    {
      GapIsCovered(g, widths, r, i, c);
    }
    assert |above| == r;
  }

  lemma GapIsCovered(g: Grid, widths: seq<nat>, r: nat, i: nat, c: nat)
    requires Tiles(g, widths) && r < |g| && i < |g[r]|
    requires EndOf(g[r][..i]) <= c < g[r][i].column < widths[r]
    ensures Covered(g[..r], r, c)
  {
    hide Apart;
    var line := g[r];
    assert Ordered(line);
    assert Covered(g, r, c);
    var s: nat, j: nat :| s < |g| && j < |g[s]| && Covers(g, s, j, r, c);
    if s == r {
      assert false;
    }
    assert s < |g[..r]| && g[..r][s] == g[s];
    assert Covers(g[..r], s, j, r, c);
  }

  // The columns and the width of a table whose cells tile it are found from its
  // cells alone.
  lemma LayoutRecovers(g: Grid, widths: seq<nat>, width: nat)
    requires Tiles(g, widths) && IsMax(widths, width)
    ensures IsLayout(CellRows(g), g) && IsWidth(g, width)
    ensures forall placed :: IsLayout(CellRows(g), placed) ==> placed == g
    ensures forall w :: IsWidth(g, w) ==> w == width
  {
    hide Covered, Apart, Covers;
    forall r | 0 <= r < |g|
      ensures LaidOut(CellRows(g)[r], g[..r], g[r])
    {
      forall i | 0 <= i < |g[r]|
        ensures FirstFree(g[..r], g[r][..i], g[r][i].column)
      {
        TileIsFirstFree(g, widths, r, i);
      }
    }
    TilingWidth(g, widths, width);
    forall placed | IsLayout(CellRows(g), placed)
      ensures placed == g
    {
      LayoutIsUnique(CellRows(g), placed, g);
    }
    forall w | IsWidth(g, w)
      ensures w == width
    {
      OneWidth(g, w, width);
    }
  }

  lemma TilingWidth(g: Grid, widths: seq<nat>, width: nat)
    requires Tiles(g, widths) && IsMax(widths, width)
    ensures IsWidth(g, width)
  {
    hide Covered, Apart;
    if width > 0 {
      var row: nat :| row < |widths| && widths[row] == width;
      assert Covered(g, row, width - 1);
    }
  }

  lemma OneWidth(g: Grid, a: nat, b: nat)
    requires IsWidth(g, a) && IsWidth(g, b)
    ensures a == b
  {
    hide Covered;
  }
}
