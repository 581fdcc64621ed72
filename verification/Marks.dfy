// Marks laid over a text as HTML: every character ends up inside exactly the
// marks that cover it.
module Marks {
  import Match

  // A text, and what is made of it, by its UTF-16 code units.
  type Units = Match.Units

  const AMP: nat := 0x26
  const LT: nat := 0x3C
  const GT: nat := 0x3E
  const QUOTE: nat := 0x22

  function Ascii(s: string): (units: Units)
    ensures |units| == |s| && forall i :: 0 <= i < |s| ==> units[i] == s[i] as int
  {
    seq(|s|, i requires 0 <= i < |s| => s[i] as int)
  }

  const AMP_ENTITY: Units := Ascii("&amp;")
  const LT_ENTITY: Units := Ascii("&lt;")
  const GT_ENTITY: Units := Ascii("&gt;")
  const QUOTE_ENTITY: Units := Ascii("&quot;")

  datatype Mark = Mark(span: Match.Span, className: Units)

  // ----- escaping -----

  function ReplaceAll(s: Units, c: nat, by': Units): Units {
    if s == [] then [] else (if s[0] == c then by' else [s[0]]) + ReplaceAll(s[1..], c, by')
  }

  function EscapeHtml(text: Units): Units {
    ReplaceAll(ReplaceAll(ReplaceAll(ReplaceAll(text, AMP, AMP_ENTITY), LT, LT_ENTITY), GT, GT_ENTITY),
               QUOTE, QUOTE_ENTITY)
  }

  function Entity(c: nat): Units {
    if c == AMP then AMP_ENTITY else if c == LT then LT_ENTITY else if c == GT then GT_ENTITY
    else if c == QUOTE then QUOTE_ENTITY else [c]
  }

  function Entities(text: Units): Units {
    if text == [] then [] else Entity(text[0]) + Entities(text[1..])
  }

  lemma {:induction false} ReplaceConcat(a: Units, b: Units, c: nat, by': Units)
    ensures ReplaceAll(a + b, c, by') == ReplaceAll(a, c, by') + ReplaceAll(b, c, by')
    decreases |a|
  {
    if a == [] {
      assert a + b == b;
    } else {
      ReplaceConcat(a[1..], b, c, by');
      assert (a + b)[1..] == a[1..] + b;
      var head := if a[0] == c then by' else [a[0]];
      assert head + (ReplaceAll(a[1..], c, by') + ReplaceAll(b, c, by'))
             == (head + ReplaceAll(a[1..], c, by')) + ReplaceAll(b, c, by');
    }
  }

  lemma {:induction false} ReplaceNone(s: Units, c: nat, by': Units)
    requires forall i :: 0 <= i < |s| ==> s[i] != c
    ensures ReplaceAll(s, c, by') == s
    decreases |s|
  {
    if s != [] {
      ReplaceNone(s[1..], c, by');
      assert [s[0]] + s[1..] == s;
    }
  }

  lemma ReplaceOne(s: nat, c: nat, by': Units)
    ensures ReplaceAll([s], c, by') == if s == c then by' else [s]
  {
    assert [s][1..] == [];
  }

  // An entity has none of the characters replaced after its own.
  lemma EntitiesStay(by': Units)
    ensures ReplaceAll(AMP_ENTITY, LT, by') == ReplaceAll(AMP_ENTITY, GT, by') == AMP_ENTITY
    ensures ReplaceAll(AMP_ENTITY, QUOTE, by') == AMP_ENTITY
    ensures ReplaceAll(LT_ENTITY, GT, by') == ReplaceAll(LT_ENTITY, QUOTE, by') == LT_ENTITY
    ensures ReplaceAll(GT_ENTITY, QUOTE, by') == GT_ENTITY
  {
    hide ReplaceAll;
    ReplaceNone(AMP_ENTITY, LT, by');
    ReplaceNone(AMP_ENTITY, GT, by');
    ReplaceNone(AMP_ENTITY, QUOTE, by');
    ReplaceNone(LT_ENTITY, GT, by');
    ReplaceNone(LT_ENTITY, QUOTE, by');
    ReplaceNone(GT_ENTITY, QUOTE, by');
  }

  lemma EscapeOne(c: nat)
    ensures EscapeHtml([c]) == Entity(c)
  {
    hide ReplaceAll, AMP_ENTITY, LT_ENTITY, GT_ENTITY, QUOTE_ENTITY;
    EntitiesStay(LT_ENTITY);
    EntitiesStay(GT_ENTITY);
    EntitiesStay(QUOTE_ENTITY);
    ReplaceOne(c, AMP, AMP_ENTITY);
    ReplaceOne(c, LT, LT_ENTITY);
    ReplaceOne(c, GT, GT_ENTITY);
    ReplaceOne(c, QUOTE, QUOTE_ENTITY);
  }

  // The four replacements one after the other escape each character once.
  lemma {:induction false} EscapesEachOnce(text: Units)
    ensures EscapeHtml(text) == Entities(text)
    decreases |text|
  {
    if text != [] {
      var head, tail := [text[0]], text[1..];
      assert head + tail == text;
      EscapesEachOnce(tail);
      EscapeOne(text[0]);
      hide ReplaceAll;
      ReplaceConcat(head, tail, AMP, AMP_ENTITY);
      var a, b := ReplaceAll(head, AMP, AMP_ENTITY), ReplaceAll(tail, AMP, AMP_ENTITY);
      ReplaceConcat(a, b, LT, LT_ENTITY);
      a, b := ReplaceAll(a, LT, LT_ENTITY), ReplaceAll(b, LT, LT_ENTITY);
      ReplaceConcat(a, b, GT, GT_ENTITY);
      a, b := ReplaceAll(a, GT, GT_ENTITY), ReplaceAll(b, GT, GT_ENTITY);
      ReplaceConcat(a, b, QUOTE, QUOTE_ENTITY);
    }
  }

  // ----- cuts -----

  function Clamp(v: int, n: nat): nat {
    if v < 0 then 0 else if v > n then n else v
  }

  function Cuts(text: Units, offset: int, marks: seq<Mark>): set<nat> {
    {0, |text|}
    + (set m | m in marks :: Clamp(m.span.start - offset, |text|))
    + (set m | m in marks :: Clamp(m.span.end - offset, |text|))
  }

  ghost predicate IsSorted(points: seq<nat>, cuts: set<nat>) {
    && (forall i, j :: 0 <= i < j < |points| ==> points[i] < points[j])
    && forall c :: c in cuts <==> c in points
  }

  method Sorted(cuts: set<nat>) returns (points: seq<nat>)
    ensures IsSorted(points, cuts)
  {
    points := [];
    var rest := cuts;
    while rest != {}
      invariant rest <= cuts
      invariant forall c :: c in cuts <==> c in rest || c in points
      invariant forall i, j :: 0 <= i < j < |points| ==> points[i] < points[j]
      invariant forall i, c :: 0 <= i < |points| && c in rest ==> points[i] < c
      decreases |rest|
    {
      var least := Minimum(rest);
      points := points + [least];
      var one: set<nat> := {least};
      rest := rest - one;
    }
  }

  method Minimum(s: set<nat>) returns (least: nat)
    requires s != {}
    ensures least in s && forall c :: c in s ==> least <= c
  {
    least :| least in s;
    var one: set<nat> := {least};
    var rest := s - one;
    while rest != {}
      invariant rest <= s && least in s
      invariant forall c :: c in s ==> c in rest || least <= c
      decreases |rest|
    {
      var c: nat :| c in rest;
      if c < least {
        least := c;
      }
      one := {c};
      rest := rest - one;
    }
  }

  // ----- pieces -----

  datatype Piece = Piece(from: nat, end: nat, classes: seq<Units>)

  predicate CoversAt(m: Mark, offset: int, p: nat) {
    m.span.start - offset <= p < m.span.end - offset
  }

  // The classes of the marks that cover a place, in order.
  function ClassesAt(marks: seq<Mark>, offset: int, p: nat): seq<Units> {
    if marks == [] then []
    else
      var last := marks[|marks| - 1];
      ClassesAt(marks[..|marks| - 1], offset, p) + if CoversAt(last, offset, p) then [last.className] else []
  }

  function ClassesOver(marks: seq<Mark>, offset: int, from: nat, end: nat): seq<Units> {
    if marks == [] then []
    else
      var last := marks[|marks| - 1];
      ClassesOver(marks[..|marks| - 1], offset, from, end)
      + if last.span.start - offset <= from && last.span.end - offset >= end then [last.className] else []
  }

  function Join(names: seq<Units>): Units {
    if names == [] then [] else if |names| == 1 then names[0] else names[0] + Ascii(" ") + Join(names[1..])
  }

  function Marked(classes: seq<Units>, piece: Units): Units {
    Ascii("<mark class=\"") + Join(classes) + Ascii("\">") + piece + Ascii("</mark>")
  }

  function PieceHtml(text: Units, p: Piece): Units
    requires p.from <= p.end <= |text|
  {
    var piece := EscapeHtml(text[p.from..p.end]);
    if p.classes == [] then piece else Marked(p.classes, piece)
  }

  predicate InText(text: Units, pieces: seq<Piece>) {
    forall i :: 0 <= i < |pieces| ==> pieces[i].from < pieces[i].end <= |text|
  }

  function Html(text: Units, pieces: seq<Piece>): Units
    requires InText(text, pieces)
  {
    if pieces == [] then [] else Html(text, pieces[..|pieces| - 1]) + PieceHtml(text, pieces[|pieces| - 1])
  }

  // The pieces follow each other up to `end`, and each character of one is
  // covered by exactly the marks whose classes it bears.
  ghost predicate Cover(text: Units, offset: int, marks: seq<Mark>, pieces: seq<Piece>, end: nat) {
    && InText(text, pieces)
    && (pieces == [] ==> end == 0)
    && (pieces != [] ==> pieces[0].from == 0 && pieces[|pieces| - 1].end == end)
    && (forall i :: 0 <= i < |pieces| - 1 ==> pieces[i].end == pieces[i + 1].from)
    && forall i, p :: 0 <= i < |pieces| && pieces[i].from <= p < pieces[i].end ==>
         pieces[i].classes == ClassesAt(marks, offset, p)
  }

  // Between two neighbouring cuts no mark begins or ends.
  lemma {:induction false} SameOver(text: Units, offset: int, marks: seq<Mark>, from: nat, end: nat, p: nat)
    requires from <= p < end <= |text|
    requires forall c :: c in Cuts(text, offset, marks) ==> c <= from || end <= c
    ensures ClassesOver(marks, offset, from, end) == ClassesAt(marks, offset, p)
    decreases |marks|
  {
    if marks != [] {
      var front, last := marks[..|marks| - 1], marks[|marks| - 1];
      assert Cuts(text, offset, front) <= Cuts(text, offset, marks);
      SameOver(text, offset, front, from, end, p);
      assert last in marks;
      assert Clamp(last.span.start - offset, |text|) in Cuts(text, offset, marks);
      assert Clamp(last.span.end - offset, |text|) in Cuts(text, offset, marks);
    }
  }

  ghost predicate Written(text: Units, offset: int, marks: seq<Mark>, pieces: seq<Piece>, end: nat, html: Units) {
    Cover(text, offset, marks, pieces, end) && html == Html(text, pieces)
  }

  lemma NothingWritten(text: Units, offset: int, marks: seq<Mark>)
    ensures Written(text, offset, marks, [], 0, [])
  {
  }

  method MarkedHtml(text: Units, offset: int, marks: seq<Mark>) returns (html: Units)
    ensures exists pieces: seq<Piece> :: Cover(text, offset, marks, pieces, |text|) && html == Html(text, pieces)
  {
    var cuts := Cuts(text, offset, marks);
    var points := Sorted(cuts);
    html := [];
    ghost var pieces: seq<Piece> := [];
    Ends(text, offset, marks, points);
    NothingWritten(text, offset, marks);
    for i := 0 to |points| - 1
      invariant Written(text, offset, marks, pieces, points[i], html)
    {
      hide Written, Cuts, IsSorted, ClassesAt, ClassesOver, Html, PieceHtml, EscapeHtml, Marked;
      var from, end := points[i], points[i + 1];
      Neighbours(text, offset, marks, points, i);
      var p := Piece(from, end, ClassesOver(marks, offset, from, end));
      var piece := EscapeHtml(text[from..end]);
      OneMore(text, offset, marks, pieces, p, html);
      html := html + if p.classes == [] then piece else Marked(p.classes, piece);
      pieces := pieces + [p];
    }
  }

  lemma Ends(text: Units, offset: int, marks: seq<Mark>, points: seq<nat>)
    requires IsSorted(points, Cuts(text, offset, marks))
    ensures points != [] && points[0] == 0 && points[|points| - 1] == |text|
  {
    var cuts := Cuts(text, offset, marks);
    assert 0 in cuts && |text| in cuts;
    assert points[0] in cuts && points[|points| - 1] in cuts;
    assert forall c :: c in cuts ==> c <= |text|;
    var i :| 0 <= i < |points| && points[i] == 0;
    var j :| 0 <= j < |points| && points[j] == |text|;
  }

  lemma Neighbours(text: Units, offset: int, marks: seq<Mark>, points: seq<nat>, i: nat)
    requires IsSorted(points, Cuts(text, offset, marks)) && i + 1 < |points| && points[|points| - 1] == |text|
    ensures points[i] < points[i + 1] <= |text|
    ensures forall p :: points[i] <= p < points[i + 1] ==>
              ClassesOver(marks, offset, points[i], points[i + 1]) == ClassesAt(marks, offset, p)
  {
    hide ClassesAt, ClassesOver, Cuts;
    var cuts := Cuts(text, offset, marks);
    forall c: nat | c in cuts
      ensures c <= points[i] || points[i + 1] <= c
    {
      var k :| 0 <= k < |points| && points[k] == c;
    }
    forall p | points[i] <= p < points[i + 1]
      ensures ClassesOver(marks, offset, points[i], points[i + 1]) == ClassesAt(marks, offset, p)
    {
      SameOver(text, offset, marks, points[i], points[i + 1], p);
    }
  }

  lemma OneMore(text: Units, offset: int, marks: seq<Mark>, pieces: seq<Piece>, p: Piece, html: Units)
    requires Written(text, offset, marks, pieces, p.from, html) && p.from < p.end <= |text|
    requires forall k :: p.from <= k < p.end ==> p.classes == ClassesAt(marks, offset, k)
    ensures var piece := EscapeHtml(text[p.from..p.end]);
            Written(text, offset, marks, pieces + [p], p.end,
                    html + if p.classes == [] then piece else Marked(p.classes, piece))
  {
    hide ClassesAt, EscapeHtml, Marked;
    assert (pieces + [p])[..|pieces|] == pieces;
  }
}
