// Text split into passages for embedding.
module Chunking {
  import opened Wrappers
  import Seqs
  import Text

  type Counter = string -> nat

  // A stretch of the text, from `start` up to `end`.
  datatype Stretch = Stretch(start: nat, end: nat)

  datatype Unit = Unit(start: nat, end: nat, tokens: nat)

  datatype Draft = Draft(index: nat, content: string, start: nat, end: nat, page: Option<nat>, tokens: nat)

  // What a regular expression finds between two places of a text.
  datatype Separator = Separator(find: (string, nat, nat) -> seq<Stretch>)

  predicate Terminal(c: char) {
    c in ".!?\U{2026}\U{3002}\U{FF01}\U{FF1F}"
  }

  predicate Closer(c: char) {
    c in "\"'\U{BB}\U{201D}\U{2019})]"
  }

  // Among the closing quotes and brackets between the end of a sentence and a
  // space, which belong to the separator.
  predicate Closes(text: string, p: nat) {
    exists a, b :: 0 < a <= p < b < |text| && Terminal(text[a - 1]) && Text.IsSpace(text[b]) && AllClosers(text, a, b)
  }

  predicate AllClosers(text: string, a: nat, b: nat)
    requires b <= |text|
  {
    forall q :: a <= q < b ==> Closer(text[q])
  }

  predicate InOrder(found: seq<Stretch>, start: nat, end: nat) {
    && (forall i :: 0 <= i < |found| ==> start <= found[i].start < found[i].end <= end)
    && forall i, j :: 0 <= i < j < |found| ==> found[i].end <= found[j].start
  }

  predicate Holds(found: seq<Stretch>, p: nat) {
    exists i :: 0 <= i < |found| && found[i].start <= p < found[i].end
  }

  ghost predicate Separates(sep: Separator, text: string) {
    forall start, end :: 0 <= start <= end <= |text| ==>
      && InOrder(sep.find(text, start, end), start, end)
      && forall p :: start <= p < end && Holds(sep.find(text, start, end), p) ==> Text.IsSpace(text[p]) || Closes(text, p)
  }

  // ----- pieces between separators -----

  function TrimOf(text: string, start: nat, end: nat): (trimmed: seq<Stretch>)
    requires start <= end <= |text|
    decreases end - start
  {
    if start == end then []
    else if Text.IsSpace(text[start]) then TrimOf(text, start + 1, end)
    else if Text.IsSpace(text[end - 1]) then TrimOf(text, start, end - 1)
    else [Stretch(start, end)]
  }

  method Trimmed(text: string, start: nat, end: nat) returns (trimmed: seq<Stretch>)
    requires start <= end <= |text|
    ensures trimmed == TrimOf(text, start, end) && IsTrimmed(text, start, end, trimmed)
  {
    var a, b := start, end;
    while a < b && Text.IsSpace(text[a])
      invariant start <= a <= b && TrimOf(text, a, b) == TrimOf(text, start, end)
      invariant forall p :: start <= p < a ==> Text.IsSpace(text[p])
    {
      a := a + 1;
    }
    while b > a && Text.IsSpace(text[b - 1])
      invariant a <= b <= end && TrimOf(text, a, b) == TrimOf(text, start, end)
      invariant a < b ==> !Text.IsSpace(text[a])
      invariant forall p :: b <= p < end ==> Text.IsSpace(text[p])
    {
      b := b - 1;
    }
    trimmed := if a < b then [Stretch(a, b)] else [];
    assert a < b ==> trimmed[0] == Stretch(a, b);
  }

  // What lies between the matches, and before the first and after the last, trimmed.
  function PiecesOf(text: string, start: nat, matches: seq<Stretch>, end: nat): seq<Stretch>
    requires start <= end <= |text| && InOrder(matches, start, end)
    decreases |matches|
  {
    if matches == [] then TrimOf(text, start, end)
    else TrimOf(text, start, matches[0].start) + PiecesOf(text, matches[0].end, matches[1..], end)
  }

  // Trimmed pieces that hold exactly what is not blank and not in a separator.
  ghost predicate ArePieces(text: string, start: nat, end: nat, matches: seq<Stretch>, pieces: seq<Stretch>)
    requires end <= |text|
  {
    && InOrder(pieces, start, end)
    && (forall p :: start <= p < end && !Text.IsSpace(text[p]) ==> (Holds(pieces, p) <==> !Holds(matches, p)))
    && forall i :: 0 <= i < |pieces| ==>
         !Text.IsSpace(text[pieces[i].start]) && !Text.IsSpace(text[pieces[i].end - 1])
  }

  method Pieces(text: string, start: nat, end: nat, sep: Separator) returns (pieces: seq<Stretch>)
    requires start <= end <= |text| && InOrder(sep.find(text, start, end), start, end)
    ensures pieces == PiecesOf(text, start, sep.find(text, start, end), end)
    ensures ArePieces(text, start, end, sep.find(text, start, end), pieces)
  {
    hide ArePieces, Holds, IsTrimmed, PiecesOf, TrimOf;
    var matches := sep.find(text, start, end);
    var position := start;
    pieces := [];
    NoPieces(text, start);
    assert matches[0..] == matches && pieces + PiecesOf(text, start, matches, end) == PiecesOf(text, start, matches, end);
    for k := 0 to |matches|
      invariant position == (if k == 0 then start else matches[k - 1].end) && start <= position <= end
      invariant InOrder(matches[k..], position, end)
      invariant pieces + PiecesOf(text, position, matches[k..], end) == PiecesOf(text, start, matches, end)
      invariant ArePieces(text, start, position, matches[..k], pieces)
    {
      var trimmed := Trimmed(text, position, matches[k].start);
      PieceAdded(text, start, position, matches, k, pieces, trimmed);
      PiecesStep(text, position, matches[k..], end);
      assert matches[k..][1..] == matches[k + 1..];
      Seqs.Assoc(pieces, trimmed, PiecesOf(text, matches[k].end, matches[k + 1..], end));
      pieces := pieces + trimmed;
      position := matches[k].end;
    }
    assert matches[..|matches|] == matches;
    var trimmed := Trimmed(text, position, end);
    LastPiece(text, start, position, end, matches, pieces, trimmed);
    PiecesEnd(text, position, end);
    pieces := pieces + trimmed;
  }

  lemma PiecesStep(text: string, start: nat, matches: seq<Stretch>, end: nat)
    requires start <= end <= |text| && InOrder(matches, start, end) && matches != []
    ensures InOrder(matches[1..], matches[0].end, end)
    ensures PiecesOf(text, start, matches, end)
            == TrimOf(text, start, matches[0].start) + PiecesOf(text, matches[0].end, matches[1..], end)
  {
  }

  lemma PiecesEnd(text: string, start: nat, end: nat)
    requires start <= end <= |text|
    ensures PiecesOf(text, start, [], end) == TrimOf(text, start, end)
  {
  }

  lemma NoPieces(text: string, start: nat)
    requires start <= |text|
    ensures ArePieces(text, start, start, [], [])
  {
  }

  lemma HoldsConcat(a: seq<Stretch>, b: seq<Stretch>, p: nat)
    ensures Holds(a + b, p) <==> Holds(a, p) || Holds(b, p)
  {
    if Holds(a, p) {
      var i :| 0 <= i < |a| && a[i].start <= p < a[i].end;
      assert (a + b)[i] == a[i];
    }
    if Holds(b, p) {
      var i :| 0 <= i < |b| && b[i].start <= p < b[i].end;
      assert (a + b)[|a| + i] == b[i];
    }
  }

  ghost predicate IsTrimmed(text: string, start: nat, end: nat, trimmed: seq<Stretch>)
    requires end <= |text|
  {
    && |trimmed| <= 1 && InOrder(trimmed, start, end)
    && (forall p :: start <= p < end && !Text.IsSpace(text[p]) ==> Holds(trimmed, p))
    && (trimmed != [] ==> !Text.IsSpace(text[trimmed[0].start]) && !Text.IsSpace(text[trimmed[0].end - 1]))
  }

  lemma PieceAdded(text: string, start: nat, position: nat, matches: seq<Stretch>, k: nat, pieces: seq<Stretch>,
                   trimmed: seq<Stretch>)
    requires k < |matches| && start <= position <= matches[k].start < matches[k].end <= |text|
    requires InOrder(matches, start, |text|) && position == if k == 0 then start else matches[k - 1].end
    requires ArePieces(text, start, position, matches[..k], pieces)
    requires IsTrimmed(text, position, matches[k].start, trimmed)
    ensures ArePieces(text, start, matches[k].end, matches[..k + 1], pieces + trimmed)
  {
    hide Holds;
    assert matches[..k + 1] == matches[..k] + [matches[k]];
    forall p | start <= p < matches[k].end && !Text.IsSpace(text[p])
      ensures Holds(pieces + trimmed, p) <==> !Holds(matches[..k + 1], p)
    {
      HoldsConcat(pieces, trimmed, p);
      HoldsConcat(matches[..k], [matches[k]], p);
      HoldsOne(matches[k], p);
      HoldsWithin(matches[..k], start, position, p);
      HoldsWithin(pieces, start, position, p);
      HoldsWithin(trimmed, position, matches[k].start, p);
    }
    OrderConcat(pieces, trimmed, start, position, matches[k].start);
  }

  lemma OrderConcat(a: seq<Stretch>, b: seq<Stretch>, start: nat, middle: nat, end: nat)
    requires start <= middle <= end && InOrder(a, start, middle) && InOrder(b, middle, end)
    ensures InOrder(a + b, start, end)
  {
  }

  lemma HoldsOne(m: Stretch, p: nat)
    ensures Holds([m], p) <==> m.start <= p < m.end
  {
    assert [m][0] == m;
  }

  lemma HoldsWithin(found: seq<Stretch>, start: nat, end: nat, p: nat)
    requires InOrder(found, start, end)
    ensures Holds(found, p) ==> start <= p < end
  {
  }

  lemma LastPiece(text: string, start: nat, position: nat, end: nat, matches: seq<Stretch>, pieces: seq<Stretch>,
                  trimmed: seq<Stretch>)
    requires start <= position <= end <= |text| && InOrder(matches, start, position)
    requires ArePieces(text, start, position, matches, pieces) && IsTrimmed(text, position, end, trimmed)
    ensures ArePieces(text, start, end, matches, pieces + trimmed)
  {
    hide Holds;
    forall p | start <= p < end && !Text.IsSpace(text[p])
      ensures Holds(pieces + trimmed, p) <==> !Holds(matches, p)
    {
      HoldsConcat(pieces, trimmed, p);
      HoldsWithin(matches, start, position, p);
      HoldsWithin(pieces, start, position, p);
      HoldsWithin(trimmed, position, end, p);
    }
    OrderConcat(pieces, trimmed, start, position, end);
  }

  // ----- units -----

  predicate Exact(text: string, count: Counter, u: Unit) {
    u.start < u.end <= |text| && u.tokens == count(text[u.start..u.end])
  }

  // Every unit fits, but for a single character that does not.
  ghost predicate Split(text: string, count: Counter, limit: nat, units: seq<Unit>, start: nat, end: nat) {
    && (forall i :: 0 <= i < |units| ==>
          && start <= units[i].start && units[i].end <= end
          && Exact(text, count, units[i])
          && (units[i].tokens <= limit || units[i].end == units[i].start + 1))
    && forall i, j :: 0 <= i < j < |units| ==> units[i].end <= units[j].start
  }

  predicate InUnit(units: seq<Unit>, p: nat) {
    exists i :: 0 <= i < |units| && units[i].start <= p < units[i].end
  }

  ghost predicate Keeps(text: string, units: seq<Unit>, start: nat, end: nat)
    requires end <= |text|
  {
    forall p :: start <= p < end && !Text.IsSpace(text[p]) ==> InUnit(units, p) || Closes(text, p)
  }

  lemma InUnitConcat(a: seq<Unit>, b: seq<Unit>, p: nat)
    ensures InUnit(a + b, p) <==> InUnit(a, p) || InUnit(b, p)
  {
    if InUnit(a, p) {
      var i :| 0 <= i < |a| && a[i].start <= p < a[i].end;
      assert (a + b)[i] == a[i];
    }
    if InUnit(b, p) {
      var i :| 0 <= i < |b| && b[i].start <= p < b[i].end;
      assert (a + b)[|a| + i] == b[i];
    }
  }

  // The longest prefix the bisection settles on: one character more would not
  // fit, or there is none.
  ghost predicate Longest(text: string, count: Counter, limit: nat, u: Unit, end: nat)
    requires u.start < u.end <= end <= |text|
  {
    u.end == end || count(text[u.start..u.end + 1]) > limit
  }

  method Prefix(text: string, count: Counter, limit: nat, start: nat, end: nat) returns (u: Unit)
    requires start < end <= |text|
    ensures u.start == start && u.end <= end && Exact(text, count, u)
    ensures u.tokens <= limit || u.end == u.start + 1
    ensures Longest(text, count, limit, u, end)
  {
    var low, high := start + 1, end;
    while low < high
      invariant start < low <= high <= end
      invariant low == start + 1 || count(text[start..low]) <= limit
      invariant high == end || count(text[start..high + 1]) > limit
    {
      var middle := (low + high + 1) / 2;
      if count(text[start..middle]) <= limit {
        low := middle;
      } else {
        high := middle - 1;
      }
    }
    u := Unit(start, low, count(text[start..low]));
  }

  // The units follow each other without a gap from one end to the other.
  ghost predicate Gapless(units: seq<Unit>, start: nat, end: nat) {
    && (units == [] ==> start == end)
    && (units != [] ==> units[0].start == start && units[|units| - 1].end == end)
    && forall i :: 0 <= i < |units| - 1 ==> units[i].end == units[i + 1].start
  }

  method Cut(text: string, count: Counter, limit: nat, start: nat, end: nat) returns (units: seq<Unit>)
    requires start <= end <= |text|
    ensures Split(text, count, limit, units, start, end) && Gapless(units, start, end)
    ensures forall i :: 0 <= i < |units| ==> Longest(text, count, limit, units[i], end)
  {
    units := [];
    var at := start;
    while at < end
      invariant start <= at <= end
      invariant Split(text, count, limit, units, start, at) && Gapless(units, start, at)
      invariant forall i :: 0 <= i < |units| ==> Longest(text, count, limit, units[i], end)
    {
      hide Split, Gapless, Longest, Exact;
      var u := Prefix(text, count, limit, at, end);
      CutMore(text, count, limit, units, u, start, at);
      units := units + [u];
      at := u.end;
    }
  }

  lemma CutMore(text: string, count: Counter, limit: nat, units: seq<Unit>, u: Unit, start: nat, at: nat)
    requires start <= at && Split(text, count, limit, units, start, at) && Gapless(units, start, at)
    requires u.start == at && Exact(text, count, u) && (u.tokens <= limit || u.end == u.start + 1)
    ensures Split(text, count, limit, units + [u], start, u.end) && Gapless(units + [u], start, u.end)
  {
    hide Exact;
    var more := units + [u];
    assert u.start < u.end by {
      ExactEnds(text, count, u);
    }
    assert forall i :: 0 <= i < |units| ==> more[i] == units[i];
  }

  lemma ExactEnds(text: string, count: Counter, u: Unit)
    requires Exact(text, count, u)
    ensures u.start < u.end <= |text|
  {
  }

  lemma Joined(text: string, count: Counter, limit: nat, a: seq<Unit>, b: seq<Unit>, start: nat, middle: nat,
               next: nat, end: nat)
    requires start <= middle <= next <= end
    requires Split(text, count, limit, a, start, middle) && Split(text, count, limit, b, next, end)
    ensures Split(text, count, limit, a + b, start, end)
  {
    hide Exact;
  }

  ghost predicate AllSeparate(separators: seq<Separator>, text: string) {
    forall k :: 0 <= k < |separators| ==> Separates(separators[k], text)
  }

  // Cut at the coarsest boundaries that fit: a stretch that fits is one unit,
  // one with no separator left is cut into the longest prefixes, and any other
  // is fitted piece by piece with the finer separators.
  ghost predicate Fitted(text: string, count: Counter, limit: nat, units: seq<Unit>, start: nat, end: nat,
                         separators: seq<Separator>)
    requires start <= end <= |text| && AllSeparate(separators, text)
    decreases |separators|, 0, 0
  {
    if count(text[start..end]) <= limit then units == [Unit(start, end, count(text[start..end]))]
    else if separators == [] then
      && Split(text, count, limit, units, start, end) && Gapless(units, start, end)
      && forall i :: 0 <= i < |units| ==> Longest(text, count, limit, units[i], end)
    else
      FindsInOrder(separators[0], text, start, end);
      var pieces := PiecesOf(text, start, separators[0].find(text, start, end), end);
      if |pieces| == 1 then Fitted(text, count, limit, units, start, end, separators[1..])
      else FittedAll(text, count, limit, units, pieces, separators[1..])
  }

  ghost predicate FittedAll(text: string, count: Counter, limit: nat, units: seq<Unit>, pieces: seq<Stretch>,
                            separators: seq<Separator>)
    requires AllSeparate(separators, text)
    decreases |separators|, 1, |pieces|
  {
    if pieces == [] then units == []
    else
      var last := pieces[|pieces| - 1];
      && last.start <= last.end <= |text|
      && exists n: nat ::
           && n <= |units| && FittedAll(text, count, limit, units[..n], pieces[..|pieces| - 1], separators)
           && Fitted(text, count, limit, units[n..], last.start, last.end, separators)
  }

  lemma FittedMore(text: string, count: Counter, limit: nat, units: seq<Unit>, more: seq<Unit>, pieces: seq<Stretch>,
                   i: nat, separators: seq<Separator>)
    requires AllSeparate(separators, text) && i < |pieces| && pieces[i].start <= pieces[i].end <= |text|
    requires FittedAll(text, count, limit, units, pieces[..i], separators)
    requires Fitted(text, count, limit, more, pieces[i].start, pieces[i].end, separators)
    ensures FittedAll(text, count, limit, units + more, pieces[..i + 1], separators)
  {
    hide AllSeparate, Fitted;
    var n, all := |units|, units + more;
    assert all[..n] == units && all[n..] == more;
    assert pieces[..i + 1][..i] == pieces[..i] && pieces[..i + 1][i] == pieces[i];
  }

  // One unit when the stretch fits; otherwise its pieces, each fitted with the
  // finer separators, and cut when there are none.
  method Fit(text: string, count: Counter, limit: nat, start: nat, end: nat, separators: seq<Separator>)
    returns (units: seq<Unit>)
    requires start < end <= |text| && AllSeparate(separators, text)
    ensures Split(text, count, limit, units, start, end) && Keeps(text, units, start, end)
    ensures Fitted(text, count, limit, units, start, end, separators)
    decreases |separators|, 0
  {
    var tokens := count(text[start..end]);
    if tokens <= limit {
      units := [Unit(start, end, tokens)];
      assert units[0] == Unit(start, end, tokens);
      return;
    }
    if separators == [] {
      units := Cut(text, count, limit, start, end);
      GaplessKeeps(text, count, limit, units, start, end);
      return;
    }
    FirstSeparates(separators, text);
    hide Split, Keeps, Separates, AllSeparate;
    FindsInOrder(separators[0], text, start, end);
    var pieces := Pieces(text, start, end, separators[0]);
    if |pieces| == 1 {
      units := Fit(text, count, limit, start, end, separators[1..]);
      return;
    }
    units := FitAll(text, count, limit, start, end, separators[0], separators[1..], pieces);
  }

  lemma FirstSeparates(separators: seq<Separator>, text: string)
    requires separators != [] && AllSeparate(separators, text)
    ensures Separates(separators[0], text) && AllSeparate(separators[1..], text)
  {
  }

  lemma FindsInOrder(sep: Separator, text: string, start: nat, end: nat)
    requires Separates(sep, text) && start <= end <= |text|
    ensures InOrder(sep.find(text, start, end), start, end)
  {
  }

  lemma GaplessKeeps(text: string, count: Counter, limit: nat, units: seq<Unit>, start: nat, end: nat)
    requires end <= |text| && Split(text, count, limit, units, start, end) && Gapless(units, start, end)
    ensures Keeps(text, units, start, end)
  {
    forall p | start <= p < end
      ensures InUnit(units, p)
    {
      var i := 0;
      while units[i].end <= p
        invariant 0 <= i < |units| && units[i].start <= p
        decreases |units| - i
      {
        assert i < |units| - 1;
        i := i + 1;
      }
    }
  }

  // The pieces of a stretch, each fitted in turn.
  method FitAll(text: string, count: Counter, limit: nat, start: nat, end: nat, ghost sep: Separator,
                separators: seq<Separator>, pieces: seq<Stretch>)
    returns (units: seq<Unit>)
    requires start <= end <= |text| && Separates(sep, text)
    requires AllSeparate(separators, text)
    requires ArePieces(text, start, end, sep.find(text, start, end), pieces)
    ensures Split(text, count, limit, units, start, end) && Keeps(text, units, start, end)
    ensures FittedAll(text, count, limit, units, pieces, separators)
    decreases |separators|, 1
  {
    hide Split, Keeps, Separates, Holds, AllSeparate, Fitted;
    units := [];
    var at := start;
    assert FittedAll(text, count, limit, units, pieces[..0], separators);
    NoUnits(text, count, limit, start);
    for i := 0 to |pieces|
      invariant start <= at <= end && at == if i == 0 then start else pieces[i - 1].end
      invariant Split(text, count, limit, units, start, at)
      invariant FittedAll(text, count, limit, units, pieces[..i], separators)
      invariant forall p :: start <= p < end && Holds(pieces[..i], p) && !Text.IsSpace(text[p]) ==>
                  InUnit(units, p) || Closes(text, p)
    {
      hide InUnit, Closes, FittedAll;
      var more := Fit(text, count, limit, pieces[i].start, pieces[i].end, separators);
      Joined(text, count, limit, units, more, start, at, pieces[i].start, pieces[i].end);
      PieceKept(text, units, more, pieces, i);
      FittedMore(text, count, limit, units, more, pieces, i, separators);
      units := units + more;
      at := pieces[i].end;
    }
    assert pieces[..|pieces|] == pieces;
    SplitWider(text, count, limit, units, start, at, end);
    AllKept(text, start, end, sep, pieces, units);
  }

  lemma NoUnits(text: string, count: Counter, limit: nat, start: nat)
    ensures Split(text, count, limit, [], start, start)
    ensures forall p :: !Holds([], p)
  {
  }

  lemma SplitWider(text: string, count: Counter, limit: nat, units: seq<Unit>, start: nat, at: nat, end: nat)
    requires Split(text, count, limit, units, start, at) && at <= end
    ensures Split(text, count, limit, units, start, end)
  {
  }

  lemma PieceKept(text: string, units: seq<Unit>, more: seq<Unit>, pieces: seq<Stretch>, i: nat)
    requires i < |pieces| && pieces[i].end <= |text| && Keeps(text, more, pieces[i].start, pieces[i].end)
    ensures forall p :: 0 <= p < |text| && Holds(pieces[..i + 1], p) && !Text.IsSpace(text[p]) && !Closes(text, p) ==>
              Holds(pieces[..i], p) || InUnit(units + more, p)
    ensures forall p :: InUnit(units, p) ==> InUnit(units + more, p)
  {
    hide Closes;
    var one := [pieces[i]];
    assert pieces[..i + 1] == pieces[..i] + one && one[0] == pieces[i];
    forall p: nat
      ensures InUnit(units, p) || InUnit(more, p) ==> InUnit(units + more, p)
      ensures Holds(pieces[..i + 1], p) ==> Holds(pieces[..i], p) || pieces[i].start <= p < pieces[i].end
    {
      InUnitConcat(units, more, p);
      HoldsConcat(pieces[..i], one, p);
    }
  }

  lemma AllKept(text: string, start: nat, end: nat, sep: Separator, pieces: seq<Stretch>, units: seq<Unit>)
    requires start <= end <= |text| && Separates(sep, text)
    requires ArePieces(text, start, end, sep.find(text, start, end), pieces)
    requires forall p :: start <= p < end && Holds(pieces, p) && !Text.IsSpace(text[p]) ==>
               InUnit(units, p) || Closes(text, p)
    ensures Keeps(text, units, start, end)
  {
    hide Holds, Closes, InUnit;
  }
}
