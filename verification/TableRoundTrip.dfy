// What a table keeps on its way through a Word file and back.
module TableRoundTrip {
  import opened Tables
  import opened Tilings
  import opened TableReader
  import opened WordTables

  // The exporter repeats a row as a header when all its cells are header cells.
  predicate AllHeaders(line: seq<Spot>) {
    line != [] && forall i :: 0 <= i < |line| ==> line[i].cell.header
  }

  function HeadersOf(g: Grid): seq<bool> {
    seq(|g|, r requires 0 <= r < |g| => AllHeaders(g[r]))
  }

  predicate Plain(cell: TableCell, header: bool) {
    cell.colspan >= 1 && cell.rowspan >= 1 && cell.content != [] && cell.header == header
  }

  // Every row starts a cell, of header cells only or of none.
  predicate TableFits(g: Grid) {
    && (forall r :: 0 <= r < |g| ==> g[r] != [])
    && forall r, i :: 0 <= r < |g| && 0 <= i < |g[r]| ==> Plain(g[r][i].cell, AllHeaders(g[r]))
  }

  predicate AllStart(g: Grid) {
    forall r :: 0 <= r < |g| ==> g[r] != []
  }

  lemma {:induction false} EveryRowStarts(g: Grid, from: nat, end: nat)
    requires AllStart(g) && from <= end <= |g|
    ensures StartingRows(g, from, end) == end - from
    decreases end
  {
    if end > from {
      EveryRowStarts(g, from, end - 1);
    }
  }

  lemma {:induction false} EveryLineKept(g: Grid, headers: seq<bool>, n: nat)
    requires AllStart(g) && n <= |g| == |headers| && Inner(g)
    ensures KeptLines(g, headers, n) == seq(n, r requires 0 <= r < n => ShrunkLine(g, headers, r))
    decreases n
  {
    hide ShrunkLine;
    if n > 0 {
      EveryLineKept(g, headers, n - 1);
    }
  }

  lemma {:induction false} FewerLines(g: Grid, headers: seq<bool>, n: nat)
    requires n <= |g| == |headers| && Inner(g)
    ensures |KeptLines(g, headers, n)| <= n
    ensures |KeptLines(g, headers, n)| == n ==> forall r :: 0 <= r < n ==> g[r] != []
    decreases n
  {
    hide ShrunkLine;
    if n > 0 {
      FewerLines(g, headers, n - 1);
    }
  }

  lemma FitsBack(g: Grid, r: nat, i: nat)
    requires AllStart(g) && Inner(g) && r < |g| && i < |g[r]|
    ensures Shrunk(g, HeadersOf(g), r, i) == g[r][i].cell <==> Plain(g[r][i].cell, AllHeaders(g[r]))
  {
    EveryRowStarts(g, r, r + Down(g[r][i].cell));
    hide StartingRows, AllHeaders;
  }

  // A table of even rows comes back from its Word table as it went exactly when
  // it fits.
  lemma EvenRoundTrips(g: Grid, widths: seq<nat>, rows: seq<WordRow>)
    requires Tiles(g, widths) && IsWordTable(g, widths, rows) && HeadersAre(rows, HeadersOf(g))
    ensures Imported(rows) == CellRows(g) <==> TableFits(g)
  {
    TilesInside(g, widths);
    ReadBack(g, widths, HeadersOf(g), rows);
    hide Tiles, IsWordTable, Imported, Plain, Inner, AllHeaders, KeptLines;
    var lines := KeptLines(g, HeadersOf(g), |g|);
    FewerLines(g, HeadersOf(g), |g|);
    assert |CellRows(lines)| == |lines| && |CellRows(g)| == |g|;
    if AllStart(g) {
      EveryLineKept(g, HeadersOf(g), |g|);
      SameRows(g);
    }
  }

  lemma TilesInside(g: Grid, widths: seq<nat>)
    requires Tiles(g, widths)
    ensures Inner(g)
  {
  }

  lemma SameRows(g: Grid)
    requires AllStart(g) && Inner(g)
    ensures CellRows(seq(|g|, r requires 0 <= r < |g| => ShrunkLine(g, HeadersOf(g), r))) == CellRows(g)
            <==> TableFits(g)
  {
    var back := CellRows(seq(|g|, r requires 0 <= r < |g| => ShrunkLine(g, HeadersOf(g), r)));
    forall r, i | 0 <= r < |g| && 0 <= i < |g[r]|
      ensures back[r][i] == CellRows(g)[r][i] <==> Plain(g[r][i].cell, AllHeaders(g[r]))
    {
      FitsBack(g, r, i);
    }
    hide Shrunk, Plain, Inner, AllHeaders;
    if TableFits(g) {
      forall r | 0 <= r < |g|
        ensures back[r] == CellRows(g)[r]
      {
        assert |back[r]| == |CellRows(g)[r]|;
      }
    }
  }

  // ----- the table the exporter writes: every row as wide as the widest -----

  const FILLER: TableCell := TableCell(false, [], 1, 1)

  function Fillers(from: nat, end: nat): (line: seq<Spot>)
    requires from <= end
    ensures |line| == end - from
    ensures forall k :: 0 <= k < |line| ==> line[k] == Spot(from + k, FILLER)
  {
    seq(end - from, k requires 0 <= k < end - from => Spot(from + k, FILLER))
  }

  predicate Within(g: Grid, widths: seq<nat>, width: nat) {
    |widths| == |g| && forall r :: 0 <= r < |g| ==> widths[r] <= width
  }

  function WithBlanks(g: Grid, widths: seq<nat>, width: nat): (h: Grid)
    requires Within(g, widths, width)
    ensures |h| == |g|
    ensures forall r :: 0 <= r < |g| ==> h[r] == g[r] + Fillers(widths[r], width)
  {
    seq(|g|, r requires 0 <= r < |g| => g[r] + Fillers(widths[r], width))
  }

  function Even(n: nat, width: nat): (widths: seq<nat>)
    ensures |widths| == n && forall r :: 0 <= r < n ==> widths[r] == width
  {
    seq(n, r => width)
  }

  ghost predicate IsExported(g: Grid, widths: seq<nat>, width: nat, rows: seq<WordRow>)
    requires Within(g, widths, width)
  {
    IsWordTable(WithBlanks(g, widths, width), Even(|g|, width), rows) && HeadersAre(rows, HeadersOf(g))
  }

  lemma EndsWithin(g: Grid, widths: seq<nat>, r: nat, i: nat)
    requires Tiles(g, widths) && r < |g| && i < |g[r]|
    ensures g[r][i].column + Across(g[r][i].cell) <= widths[r]
  {
    hide Apart;
    assert Covers(g, r, i, r, g[r][i].column + Across(g[r][i].cell) - 1);
    assert Covered(g, r, g[r][i].column + Across(g[r][i].cell) - 1);
  }

  // Which spot of the wider table covers a place: the same one, or a blank.
  lemma WhichCovers(g: Grid, widths: seq<nat>, width: nat, s: nat, i: nat, r: nat, c: nat)
    requires Tiles(g, widths) && Within(g, widths, width) && r < |g|
    requires var h := WithBlanks(g, widths, width); s < |h| && i < |h[s]| && Covers(h, s, i, r, c)
    ensures c < width && (i < |g[s]| <==> c < widths[r])
    ensures i < |g[s]| ==> Covers(g, s, i, r, c)
    ensures i >= |g[s]| ==> r == s && c == widths[s] + i - |g[s]|
  {
    hide Apart, Covered, Ordered;
    if i < |g[s]| {
      assert Covers(g, s, i, r, c);
      assert Covered(g, r, c) by {
        IsCovered(g, s, i, r, c);
      }
    }
  }

  lemma IsCovered(g: Grid, s: nat, i: nat, r: nat, c: nat)
    requires s < |g| && i < |g[s]| && Covers(g, s, i, r, c)
    ensures Covered(g, r, c)
  {
  }

  lemma FillersTile(g: Grid, widths: seq<nat>, width: nat)
    requires Tiles(g, widths) && Within(g, widths, width)
    ensures Tiles(WithBlanks(g, widths, width), Even(|g|, width))
  {
    hide Covers, Covered, Apart, Ordered;
    var h := WithBlanks(g, widths, width);
    forall r: nat | r < |g|
      ensures Ordered(h[r])
    {
      FillersOrdered(g, widths, width, r);
    }
    forall r: nat, c: nat | r < |g|
      ensures Covered(h, r, c) <==> c < width
    {
      FillersCover(g, widths, width, r, c);
    }
    FillersApart(g, widths, width);
  }

  lemma FillersOrdered(g: Grid, widths: seq<nat>, width: nat, r: nat)
    requires Tiles(g, widths) && Within(g, widths, width) && r < |g|
    ensures Ordered(WithBlanks(g, widths, width)[r])
  {
    hide Covered, Apart;
    forall i: nat | i < |g[r]|
      ensures g[r][i].column + Across(g[r][i].cell) <= widths[r]
    {
      EndsWithin(g, widths, r, i);
    }
    assert Ordered(g[r]);
  }

  lemma FillersCover(g: Grid, widths: seq<nat>, width: nat, r: nat, c: nat)
    requires Tiles(g, widths) && Within(g, widths, width) && r < |g|
    ensures Covered(WithBlanks(g, widths, width), r, c) <==> c < width
  {
    hide Apart, Ordered, Covers, Tiles;
    var h := WithBlanks(g, widths, width);
    if Covered(h, r, c) {
      var s: nat, i: nat :| s < |h| && i < |h[s]| && Covers(h, s, i, r, c);
      WhichCovers(g, widths, width, s, i, r, c);
    }
    if c < widths[r] {
      var s, i := Coverer(g, widths, r, c);
      StillCovers(g, widths, width, s, i, r, c);
      IsCovered(h, s, i, r, c);
    } else if c < width {
      StillBlank(g, widths, width, r, c);
      IsCovered(h, r, |g[r]| + c - widths[r], r, c);
    }
  }

  lemma StillCovers(g: Grid, widths: seq<nat>, width: nat, s: nat, i: nat, r: nat, c: nat)
    requires Within(g, widths, width) && s < |g| && i < |g[s]| && Covers(g, s, i, r, c)
    ensures Covers(WithBlanks(g, widths, width), s, i, r, c)
  {
  }

  lemma StillBlank(g: Grid, widths: seq<nat>, width: nat, r: nat, c: nat)
    requires Within(g, widths, width) && r < |g| && widths[r] <= c < width
    ensures Covers(WithBlanks(g, widths, width), r, |g[r]| + c - widths[r], r, c)
  {
  }

  lemma FillersApart(g: Grid, widths: seq<nat>, width: nat)
    requires Tiles(g, widths) && Within(g, widths, width)
    ensures Apart(WithBlanks(g, widths, width))
  {
    hide Covers, Covered, Ordered, Apart, Tiles;
    var h := WithBlanks(g, widths, width);
    forall s: nat, i: nat, t: nat, j: nat, r: nat, c: nat |
      s < |h| && i < |h[s]| && t < |h| && j < |h[t]| && Covers(h, s, i, r, c) && Covers(h, t, j, r, c)
      ensures s == t && i == j
    {
      assert r < |g| by {
        RowInside(g, widths, width, s, i, r, c);
      }
      WhichCovers(g, widths, width, s, i, r, c);
      WhichCovers(g, widths, width, t, j, r, c);
      if i < |g[s]| {
        assert Apart(g) by {
          TilesApart(g, widths);
        }
        Together(g, s, i, t, j, r, c);
      }
    }
    IsApart(h);
  }

  lemma TilesApart(g: Grid, widths: seq<nat>)
    requires Tiles(g, widths)
    ensures Apart(g)
  {
  }

  lemma RowInside(g: Grid, widths: seq<nat>, width: nat, s: nat, i: nat, r: nat, c: nat)
    requires Tiles(g, widths) && Within(g, widths, width)
    requires var h := WithBlanks(g, widths, width); s < |h| && i < |h[s]| && Covers(h, s, i, r, c)
    ensures r < |g|
  {
    hide Apart, Covered, Ordered;
  }

  // Every table the editor keeps has the Word table the exporter writes for it.
  lemma ExportExists(g: Grid, widths: seq<nat>, width: nat) returns (rows: seq<WordRow>)
    requires Tiles(g, widths) && IsMax(widths, width)
    ensures Within(g, widths, width) && IsExported(g, widths, width, rows)
  {
    TilesWithin(g, widths, width);
    FillersTile(g, widths, width);
    hide Tiles, IsWordTable, HeadersOf, IsMax;
    rows := WordTableExists(WithBlanks(g, widths, width), Even(|g|, width), HeadersOf(g));
  }

  lemma TilesWithin(g: Grid, widths: seq<nat>, width: nat)
    requires Tiles(g, widths) && IsMax(widths, width)
    ensures Within(g, widths, width) && Inner(g)
  {
    hide Apart, Covered, Ordered;
  }

  // A table comes back from its Word table as it went exactly when it fits and
  // none of its rows is short: the exporter fills a short row with blank cells.
  lemma TableRoundTrips(g: Grid, widths: seq<nat>, width: nat, rows: seq<WordRow>)
    requires Tiles(g, widths) && IsMax(widths, width)
    requires Within(g, widths, width) && IsExported(g, widths, width, rows)
    ensures Imported(rows) == CellRows(g) <==> TableFits(g) && forall r :: 0 <= r < |g| ==> widths[r] == width
  {
    var h := WithBlanks(g, widths, width);
    FillersTile(g, widths, width);
    hide Tiles, IsWordTable, Imported, TableFits, HeadersOf, IsMax;
    if forall r :: 0 <= r < |g| ==> widths[r] == width {
      assert Even(|g|, width) == widths;
      assert forall r :: 0 <= r < |g| ==> h[r] == g[r];
      assert h == g;
      EvenRoundTrips(g, widths, rows);
    } else {
      var r: nat :| r < |g| && widths[r] != width;
      TilesInside(h, Even(|g|, width));
      ReadBack(h, Even(|g|, width), HeadersOf(g), rows);
      ShortRowGrows(h, HeadersOf(g), g, r);
    }
  }

  lemma ShrunkLength(g: Grid, headers: seq<bool>, r: nat)
    requires r < |g| == |headers| && Inner(g)
    ensures |ShrunkLine(g, headers, r)| == |g[r]|
  {
  }

  lemma ShortRowGrows(h: Grid, headers: seq<bool>, g: Grid, r: nat)
    requires Inner(h) && |headers| == |h| == |g| && r < |g| && |h[r]| > |g[r]|
    ensures CellRows(KeptLines(h, headers, |h|)) != CellRows(g)
  {
    hide Inner, KeptLines, ShrunkLine;
    var lines := KeptLines(h, headers, |h|);
    FewerLines(h, headers, |h|);
    assert |CellRows(lines)| == |lines| && |CellRows(g)| == |g|;
    if |lines| == |g| {
      EveryLineKept(h, headers, |h|);
      ShrunkLength(h, headers, r);
      assert |CellRows(lines)[r]| == |lines[r]| && |CellRows(g)[r]| == |g[r]|;
    }
  }

  // ----- what comes back tiles its rows, too -----

  function KeptWidths(g: Grid, widths: seq<nat>, n: nat): seq<nat>
    requires n <= |g| == |widths|
  {
    if n == 0 then []
    else if g[n - 1] == [] then KeptWidths(g, widths, n - 1)
    else KeptWidths(g, widths, n - 1) + [widths[n - 1]]
  }

  // Where a row that starts a cell comes to stand.
  function Rank(g: Grid, r: nat): nat
    requires r <= |g|
  {
    StartingRows(g, 0, r)
  }

  lemma {:induction false} RankRises(g: Grid, r: nat, s: nat)
    requires r < s <= |g|
    ensures Rank(g, r) <= Rank(g, s)
    ensures g[r] != [] ==> Rank(g, r) < Rank(g, s)
    decreases s
  {
    if r < s - 1 {
      RankRises(g, r, s - 1);
    }
  }

  lemma {:induction false} RankSplits(g: Grid, s: nat, end: nat)
    requires s <= end <= |g|
    ensures Rank(g, end) == Rank(g, s) + StartingRows(g, s, end)
    decreases end
  {
    if end > s {
      RankSplits(g, s, end - 1);
    }
  }

  lemma {:induction false} KeptAt(g: Grid, widths: seq<nat>, headers: seq<bool>, n: nat, r: nat)
    requires r < n <= |g| == |headers| == |widths| && Inner(g) && g[r] != []
    ensures |KeptLines(g, headers, n)| == |KeptWidths(g, widths, n)| == Rank(g, n) > Rank(g, r)
    ensures KeptLines(g, headers, n)[Rank(g, r)] == ShrunkLine(g, headers, r)
    ensures KeptWidths(g, widths, n)[Rank(g, r)] == widths[r]
    decreases n
  {
    hide ShrunkLine;
    KeptMany(g, widths, headers, n);
    if r < n - 1 {
      KeptAt(g, widths, headers, n - 1, r);
    } else {
      KeptMany(g, widths, headers, n - 1);
    }
  }

  lemma {:induction false} KeptMany(g: Grid, widths: seq<nat>, headers: seq<bool>, n: nat)
    requires n <= |g| == |headers| == |widths| && Inner(g)
    ensures |KeptLines(g, headers, n)| == |KeptWidths(g, widths, n)| == Rank(g, n)
    decreases n
  {
    hide ShrunkLine;
    if n > 0 {
      KeptMany(g, widths, headers, n - 1);
    }
  }

  lemma {:induction false} RowOfRank(g: Grid, k: nat, n: nat) returns (r: nat)
    requires n <= |g| && k < Rank(g, n)
    ensures r < n && g[r] != [] && Rank(g, r) == k
    decreases n
  {
    if Rank(g, n - 1) == k {
      r := n - 1;
    } else {
      r := RowOfRank(g, k, n - 1);
    }
  }

  // A spot covers, among the rows that stay, those it covered.
  lemma CoversBack(g: Grid, widths: seq<nat>, headers: seq<bool>, s: nat, i: nat, r: nat, c: nat)
    requires |g| == |headers| == |widths| && Inner(g)
    requires s < |g| && i < |g[s]| && r < |g| && g[r] != []
    ensures var h := KeptLines(g, headers, |g|);
            && Rank(g, s) < |h| && Rank(g, r) < |h| && |h[Rank(g, s)]| == |g[s]|
            && h[Rank(g, s)] == ShrunkLine(g, headers, s)
            && (Covers(h, Rank(g, s), i, Rank(g, r), c) <==> Covers(g, s, i, r, c))
            && Rank(g, s) + Down(h[Rank(g, s)][i].cell) <= |h|
  {
    var to := s + Down(g[s][i].cell);
    KeptAt(g, widths, headers, |g|, s);
    KeptAt(g, widths, headers, |g|, r);
    RankSplits(g, s, to);
    RankRises(g, s, to);
    RankOrder(g, s, r);
    RankOrder(g, r, to);
    hide KeptLines, KeptWidths, StartingRows;
    if to < |g| {
      RankRises(g, to, |g|);
    }
  }

  lemma RankOrder(g: Grid, r: nat, s: nat)
    requires r < |g| && s <= |g| && g[r] != []
    ensures r < s ==> Rank(g, r) < Rank(g, s)
    ensures s <= r ==> Rank(g, s) <= Rank(g, r)
    ensures s < r && g[s] != [] ==> Rank(g, s) < Rank(g, r)
  {
    if r < s {
      RankRises(g, r, s);
    } else if s < r {
      RankRises(g, s, r);
    }
  }

  lemma RowBehind(g: Grid, widths: seq<nat>, headers: seq<bool>, k: nat) returns (r: nat)
    requires |g| == |headers| == |widths| && Inner(g) && k < |KeptLines(g, headers, |g|)|
    ensures r < |g| && g[r] != [] && Rank(g, r) == k
    ensures KeptLines(g, headers, |g|)[k] == ShrunkLine(g, headers, r)
    ensures k < |KeptWidths(g, widths, |g|)| && KeptWidths(g, widths, |g|)[k] == widths[r]
  {
    KeptMany(g, widths, headers, |g|);
    r := RowOfRank(g, k, |g|);
    KeptAt(g, widths, headers, |g|, r);
  }

  lemma BackCovers(g: Grid, widths: seq<nat>, headers: seq<bool>, k: nat, i: nat, q: nat, c: nat)
    returns (s: nat, r: nat)
    requires Tiles(g, widths) && |g| == |headers| && Inner(g)
    requires var h := KeptLines(g, headers, |g|);
             k < |h| && i < |h[k]| && q < |h| && Covers(h, k, i, q, c)
    ensures s < |g| && Rank(g, s) == k && r < |g| && Rank(g, r) == q && g[r] != []
    ensures i < |g[s]| && Covers(g, s, i, r, c) && c < widths[r]
    ensures q < |KeptWidths(g, widths, |g|)| && KeptWidths(g, widths, |g|)[q] == widths[r]
  {
    s := RowBehind(g, widths, headers, k);
    r := RowBehind(g, widths, headers, q);
    CoversBack(g, widths, headers, s, i, r, c);
    assert Covered(g, r, c);
  }

  // Read back, the rows that stay are covered as they were.
  lemma KeptTiles(g: Grid, widths: seq<nat>, headers: seq<bool>)
    requires Tiles(g, widths) && |g| == |headers| && Inner(g)
    ensures Tiles(KeptLines(g, headers, |g|), KeptWidths(g, widths, |g|))
  {
    hide KeptLines, KeptWidths, Covers, Rank, Inner, Apart;
    var h, kept := KeptLines(g, headers, |g|), KeptWidths(g, widths, |g|);
    KeptMany(g, widths, headers, |g|);
    forall k: nat | k < |h|
      ensures Ordered(h[k])
      ensures forall i: nat :: i < |h[k]| ==> k + Down(h[k][i].cell) <= |h|
    {
      var r := RowBehind(g, widths, headers, k);
      assert Ordered(g[r]);
      forall i: nat | i < |h[k]|
        ensures k + Down(h[k][i].cell) <= |h|
      {
        CoversBack(g, widths, headers, r, i, r, 0);
      }
    }
    forall q: nat, c: nat | q < |h|
      ensures Covered(h, q, c) <==> c < kept[q]
    {
      KeptCovered(g, widths, headers, q, c);
    }
    assert Apart(h) by {
      KeptApart(g, widths, headers);
    }
  }

  lemma KeptCovered(g: Grid, widths: seq<nat>, headers: seq<bool>, q: nat, c: nat)
    requires Tiles(g, widths) && |g| == |headers| && Inner(g) && q < |KeptLines(g, headers, |g|)|
    ensures q < |KeptWidths(g, widths, |g|)|
    ensures Covered(KeptLines(g, headers, |g|), q, c) <==> c < KeptWidths(g, widths, |g|)[q]
  {
    hide KeptLines, KeptWidths, Covers, Rank, Inner, Apart;
    var h := KeptLines(g, headers, |g|);
    var r := RowBehind(g, widths, headers, q);
    if Covered(h, q, c) {
      var k: nat, i: nat :| k < |h| && i < |h[k]| && Covers(h, k, i, q, c);
      var s, t := BackCovers(g, widths, headers, k, i, q, c);
    }
    if c < widths[r] {
      assert Covered(g, r, c);
      var s: nat, i: nat :| s < |g| && i < |g[s]| && Covers(g, s, i, r, c);
      CoversBack(g, widths, headers, s, i, r, c);
      assert Covers(h, Rank(g, s), i, q, c);
    }
  }

  lemma KeptApart(g: Grid, widths: seq<nat>, headers: seq<bool>)
    requires Tiles(g, widths) && |g| == |headers| && Inner(g)
    ensures Apart(KeptLines(g, headers, |g|))
  {
    hide KeptLines, KeptWidths, Covers, Inner, Rank, Apart;
    var h := KeptLines(g, headers, |g|);
    forall k: nat, i: nat, l: nat, j: nat, q: nat, c: nat |
      k < |h| && i < |h[k]| && l < |h| && j < |h[l]| && Covers(h, k, i, q, c) && Covers(h, l, j, q, c)
      ensures k == l && i == j
    {
      CoversInside(g, widths, headers, k, i, q, c);
      var s, r := BackCovers(g, widths, headers, k, i, q, c);
      var t, r' := BackCovers(g, widths, headers, l, j, q, c);
      OneRowPerRank(g, r, r');
      Together(g, s, i, t, j, r, c);
    }
    IsApart(h);
  }

  lemma IsApart(h: Grid)
    requires forall k: nat, i: nat, l: nat, j: nat, q: nat, c: nat ::
               k < |h| && i < |h[k]| && l < |h| && j < |h[l]| && Covers(h, k, i, q, c) && Covers(h, l, j, q, c)
               ==> k == l && i == j
    ensures Apart(h)
  {
  }

  lemma OneRowPerRank(g: Grid, r: nat, s: nat)
    requires r < |g| && s < |g| && g[r] != [] && g[s] != [] && Rank(g, r) == Rank(g, s)
    ensures r == s
  {
    RankOrder(g, r, s);
    RankOrder(g, s, r);
  }

  lemma CoversInside(g: Grid, widths: seq<nat>, headers: seq<bool>, k: nat, i: nat, q: nat, c: nat)
    requires Tiles(g, widths) && |g| == |headers| && Inner(g)
    requires var h := KeptLines(g, headers, |g|); k < |h| && i < |h[k]| && Covers(h, k, i, q, c)
    ensures q < |KeptLines(g, headers, |g|)|
  {
    var r := RowBehind(g, widths, headers, k);
    CoversBack(g, widths, headers, r, i, r, c);
  }
}
