// The HTML made of a marked text, read as a browser does: characters, each under
// the classes of the marks around it.
module MarkedText {
  import opened Marks

  const OPENING: Units := Ascii("<mark class=\"")
  const OPENED: Units := Ascii("\">")
  const CLOSING: Units := Ascii("</mark>")
  const SPACE: nat := 0x20

  predicate IsClassName(name: Units) {
    name != [] && QUOTE !in name && SPACE !in name
  }

  function UpTo(s: Units, c: nat): (n: nat)
    ensures n <= |s| && c !in s[..n] && (n < |s| ==> s[n] == c)
  {
    if s == [] || s[0] == c then 0 else
      var n := UpTo(s[1..], c);
      assert s[..n + 1] == [s[0]] + s[1..][..n];
      n + 1
  }

  function Split(s: Units): (names: seq<Units>)
    ensures names != []
  {
    if s == [] then [[]] else
      var rest := Split(s[1..]);
      if s[0] == SPACE then [[]] + rest else [[s[0]] + rest[0]] + rest[1..]
  }

  type Letter = (nat, seq<Units>)

  // What is read of some HTML, the text before it being under `classes`.
  function Seen(html: Units, classes: seq<Units>): seq<Letter>
    decreases |html|
  {
    if html == [] then []
    else if OPENING <= html then
      var rest := html[|OPENING|..];
      var end := UpTo(rest, QUOTE);
      if end + |OPENED| <= |rest| then Seen(rest[end + |OPENED|..], Split(rest[..end])) else []
    else if CLOSING <= html then Seen(html[|CLOSING|..], [])
    else if AMP_ENTITY <= html then [(AMP, classes)] + Seen(html[|AMP_ENTITY|..], classes)
    else if LT_ENTITY <= html then [(LT, classes)] + Seen(html[|LT_ENTITY|..], classes)
    else if GT_ENTITY <= html then [(GT, classes)] + Seen(html[|GT_ENTITY|..], classes)
    else if QUOTE_ENTITY <= html then [(QUOTE, classes)] + Seen(html[|QUOTE_ENTITY|..], classes)
    else [(html[0], classes)] + Seen(html[1..], classes)
  }

  function Letters(text: Units, classes: seq<Units>): seq<Letter> {
    seq(|text|, i requires 0 <= i < |text| => (text[i], classes))
  }

  // ----- characters -----

  lemma Starts()
    ensures OPENING[0] == LT && CLOSING[0] == LT && OPENING[1] == 0x6D && CLOSING[1] == 0x2F
    ensures AMP_ENTITY[0] == LT_ENTITY[0] == GT_ENTITY[0] == QUOTE_ENTITY[0] == AMP
    ensures AMP_ENTITY[1] == 0x61 && LT_ENTITY[1] == 0x6C && GT_ENTITY[1] == 0x67 && QUOTE_ENTITY[1] == 0x71
    ensures |OPENING| > 1 && |CLOSING| > 1 && |OPENED| == 2 && OPENED[0] == QUOTE
    ensures |AMP_ENTITY| > 1 && |LT_ENTITY| > 1 && |GT_ENTITY| > 1 && |QUOTE_ENTITY| > 1
  {
    assert "<mark class=\""[0] == '<' && "<mark class=\""[1] == 'm' && "</mark>"[0] == '<' && "</mark>"[1] == '/';
    assert "&amp;"[0] == "&lt;"[0] == "&gt;"[0] == "&quot;"[0] == '&';
    assert "&amp;"[1] == 'a' && "&lt;"[1] == 'l' && "&gt;"[1] == 'g' && "&quot;"[1] == 'q';
    assert "\">"[0] == '"';
  }

  // Neither a tag, nor an entity unless it opens with an ampersand.
  lemma NoTag(html: Units)
    requires html != [] && html[0] != LT
    ensures !(OPENING <= html) && !(CLOSING <= html)
    ensures html[0] != AMP ==>
              !(AMP_ENTITY <= html) && !(LT_ENTITY <= html) && !(GT_ENTITY <= html) && !(QUOTE_ENTITY <= html)
  {
    Starts();
    hide Ascii;
  }

  // Only one entity begins with an ampersand and its own second character.
  lemma ItsEntity(html: Units)
    requires |html| > 1
    ensures AMP_ENTITY <= html ==> html[1] == 0x61
    ensures LT_ENTITY <= html ==> html[1] == 0x6C
    ensures GT_ENTITY <= html ==> html[1] == 0x67
    ensures QUOTE_ENTITY <= html ==> html[1] == 0x71
  {
    Starts();
    hide Ascii;
  }

  lemma EntitySeen(c: nat, rest: Units, classes: seq<Units>)
    ensures Seen(Entity(c) + rest, classes) == [(c, classes)] + Seen(rest, classes)
  {
    Starts();
    hide Split, UpTo, Ascii;
    var html := Entity(c) + rest;
    assert html[|Entity(c)|..] == rest && Entity(c) <= html && html[0] == Entity(c)[0];
    NoTag(html);
    if |Entity(c)| > 1 {
      assert html[1] == Entity(c)[1];
      ItsEntity(html);
    }
  }

  lemma {:induction false} EscapedSeen(text: Units, rest: Units, classes: seq<Units>)
    ensures Seen(EscapeHtml(text) + rest, classes) == Letters(text, classes) + Seen(rest, classes)
    decreases |text|
  {
    hide Seen, EscapeHtml, Entity;
    EscapesEachOnce(text);
    if text == [] {
      assert [] + rest == rest;
      assert Letters(text, classes) + Seen(rest, classes) == Seen(rest, classes);
    } else {
      EscapesEachOnce(text[1..]);
      EscapedSeen(text[1..], rest, classes);
      EntitySeen(text[0], Entities(text[1..]) + rest, classes);
      assert Entity(text[0]) + Entities(text[1..]) + rest == Entity(text[0]) + (Entities(text[1..]) + rest);
      assert Letters(text, classes) == [(text[0], classes)] + Letters(text[1..], classes);
      assert [(text[0], classes)] + (Letters(text[1..], classes) + Seen(rest, classes))
             == Letters(text, classes) + Seen(rest, classes);
    }
  }

  // ----- classes -----

  lemma {:induction false} SplitAt(a: Units, b: Units)
    requires SPACE !in a
    ensures Split(a) == [a] && Split(a + ([SPACE] + b)) == [a] + Split(b)
    decreases |a|
  {
    if a == [] {
      assert [] + ([SPACE] + b) == [SPACE] + b && ([SPACE] + b)[1..] == b;
    } else {
      SplitAt(a[1..], b);
      assert (a + ([SPACE] + b))[1..] == a[1..] + ([SPACE] + b);
      assert [a[0]] + a[1..] == a;
    }
  }

  lemma {:induction false} JoinSplits(names: seq<Units>)
    requires names != [] && forall i :: 0 <= i < |names| ==> IsClassName(names[i])
    ensures Split(Join(names)) == names && QUOTE !in Join(names)
    decreases |names|
  {
    hide Split;
    assert Ascii(" ") == [SPACE] by {
      assert " "[0] == ' ';
    }
    if |names| == 1 {
      SplitAt(names[0], []);
    } else {
      JoinSplits(names[1..]);
      SplitAt(names[0], Join(names[1..]));
      assert names[0] + [SPACE] + Join(names[1..]) == names[0] + ([SPACE] + Join(names[1..]));
      assert [names[0]] + names[1..] == names;
    }
  }

  lemma UpToQuote(a: Units, b: Units)
    requires QUOTE !in a && b != [] && b[0] == QUOTE
    ensures UpTo(a + b, QUOTE) == |a|
  {
    var s, n := a + b, UpTo(a + b, QUOTE);
    assert s[|a|] == QUOTE;
  }

  lemma OpeningSeen(names: seq<Units>, rest: Units, classes: seq<Units>)
    requires names != [] && forall i :: 0 <= i < |names| ==> IsClassName(names[i])
    ensures Seen(OPENING + (Join(names) + (OPENED + rest)), classes) == Seen(rest, names)
  {
    hide Join, Split, UpTo, Ascii;
    Starts();
    JoinSplits(names);
    UpToQuote(Join(names), OPENED + rest);
    var after := Join(names) + (OPENED + rest);
    var html := OPENING + after;
    assert OPENING <= html && html[|OPENING|..] == after;
    assert after[..|Join(names)|] == Join(names);
    assert after[|Join(names)| + |OPENED|..] == rest;
  }

  lemma ClosingSeen(rest: Units, classes: seq<Units>)
    ensures Seen(CLOSING + rest, classes) == Seen(rest, [])
  {
    hide Split, UpTo;
    Starts();
    var html := CLOSING + rest;
    assert CLOSING <= html && html[|CLOSING|..] == rest && html[1] == CLOSING[1];
  }

  // ----- pieces -----

  lemma PieceSeen(text: Units, p: Piece, rest: Units)
    requires p.from <= p.end <= |text| && forall i :: 0 <= i < |p.classes| ==> IsClassName(p.classes[i])
    ensures Seen(PieceHtml(text, p) + rest, []) == Letters(text[p.from..p.end], p.classes) + Seen(rest, [])
  {
    hide Seen, EscapeHtml, Join, Letters, Ascii, IsClassName;
    var part := text[p.from..p.end];
    if p.classes == [] {
      EscapedSeen(part, rest, []);
    } else {
      var escaped := EscapeHtml(part);
      var inner := escaped + (CLOSING + rest);
      MarkedParts(p.classes, escaped, rest);
      OpeningSeen(p.classes, inner, []);
      EscapedSeen(part, CLOSING + rest, p.classes);
      ClosingSeen(rest, p.classes);
    }
  }

  lemma MarkedParts(classes: seq<Units>, escaped: Units, rest: Units)
    ensures Marked(classes, escaped) + rest == OPENING + (Join(classes) + (OPENED + (escaped + (CLOSING + rest))))
  {
    hide Join, Ascii;
  }

  function Shown(text: Units, pieces: seq<Piece>): seq<Letter>
    requires InText(text, pieces)
  {
    if pieces == [] then [] else
      var last := pieces[|pieces| - 1];
      Shown(text, pieces[..|pieces| - 1]) + Letters(text[last.from..last.end], last.classes)
  }

  ghost predicate Named(pieces: seq<Piece>) {
    forall k, i :: 0 <= k < |pieces| && 0 <= i < |pieces[k].classes| ==> IsClassName(pieces[k].classes[i])
  }

  lemma {:induction false} HtmlSeen(text: Units, pieces: seq<Piece>, rest: Units)
    requires InText(text, pieces) && Named(pieces)
    ensures Seen(Html(text, pieces) + rest, []) == Shown(text, pieces) + Seen(rest, [])
    decreases |pieces|
  {
    hide Seen, PieceHtml, Letters, IsClassName;
    if pieces == [] {
      assert [] + rest == rest && Shown(text, pieces) + Seen(rest, []) == Seen(rest, []);
    } else {
      var front, last := pieces[..|pieces| - 1], pieces[|pieces| - 1];
      HtmlSeen(text, front, PieceHtml(text, last) + rest);
      PieceSeen(text, last, rest);
      Together(Html(text, front), PieceHtml(text, last), rest);
      Together(Shown(text, front), Letters(text[last.from..last.end], last.classes), Seen(rest, []));
    }
  }

  lemma Together<T>(a: seq<T>, b: seq<T>, c: seq<T>)
    ensures a + b + c == a + (b + c)
  {
  }

  // Each character up to `end` under the marks that cover it.
  function Covered(text: Units, offset: int, marks: seq<Mark>, end: nat): seq<Letter>
    requires end <= |text|
  {
    seq(end, p requires 0 <= p < end => (text[p], ClassesAt(marks, offset, p)))
  }

  ghost predicate Under(offset: int, marks: seq<Mark>, p: Piece) {
    forall k :: p.from <= k < p.end ==> p.classes == ClassesAt(marks, offset, k)
  }

  lemma CoverLast(text: Units, offset: int, marks: seq<Mark>, pieces: seq<Piece>, end: nat)
    requires Cover(text, offset, marks, pieces, end) && pieces != []
    ensures var front, last := pieces[..|pieces| - 1], pieces[|pieces| - 1];
            && InText(text, pieces) && InText(text, front) && last.from < last.end == end <= |text|
            && Cover(text, offset, marks, front, last.from) && Under(offset, marks, last)
  {
    hide ClassesAt;
    var n := |pieces| - 1;
    assert n > 0 ==> pieces[n - 1].end == pieces[n].from;
  }

  lemma CoveredMore(text: Units, offset: int, marks: seq<Mark>, p: Piece)
    requires p.from <= p.end <= |text| && Under(offset, marks, p)
    ensures Covered(text, offset, marks, p.from) + Letters(text[p.from..p.end], p.classes)
            == Covered(text, offset, marks, p.end)
  {
    hide ClassesAt;
  }

  lemma {:induction false} CoverShown(text: Units, offset: int, marks: seq<Mark>, pieces: seq<Piece>, end: nat)
    requires Cover(text, offset, marks, pieces, end)
    ensures end <= |text| && InText(text, pieces) && Shown(text, pieces) == Covered(text, offset, marks, end)
    decreases |pieces|
  {
    if pieces != [] {
      CoverLast(text, offset, marks, pieces, end);
      hide Cover, Covered, Letters, Under, ClassesAt;
      var front, last := pieces[..|pieces| - 1], pieces[|pieces| - 1];
      CoverShown(text, offset, marks, front, last.from);
      CoveredMore(text, offset, marks, last);
      ShownLast(text, pieces);
    }
  }

  lemma ShownLast(text: Units, pieces: seq<Piece>)
    requires pieces != [] && InText(text, pieces) && InText(text, pieces[..|pieces| - 1])
    ensures var last := pieces[|pieces| - 1];
            Shown(text, pieces)
            == Shown(text, pieces[..|pieces| - 1]) + Letters(text[last.from..last.end], last.classes)
  {
    hide Letters;
  }

  lemma {:induction false} ClassesNamed(marks: seq<Mark>, offset: int, p: nat)
    requires forall i :: 0 <= i < |marks| ==> IsClassName(marks[i].className)
    ensures forall i :: 0 <= i < |ClassesAt(marks, offset, p)| ==> IsClassName(ClassesAt(marks, offset, p)[i])
    decreases |marks|
  {
    hide IsClassName;
    if marks != [] {
      ClassesNamed(marks[..|marks| - 1], offset, p);
    }
  }

  // Whatever the text and the marks, the HTML reads as the text itself, each of
  // its characters under exactly the classes of the marks that cover it.
  lemma HtmlReads(text: Units, offset: int, marks: seq<Mark>, pieces: seq<Piece>)
    requires Cover(text, offset, marks, pieces, |text|)
    requires forall i :: 0 <= i < |marks| ==> IsClassName(marks[i].className)
    ensures Seen(Html(text, pieces), []) == Covered(text, offset, marks, |text|)
  {
    CoverShown(text, offset, marks, pieces, |text|);
    hide ClassesAt, Html, Seen, Shown, IsClassName;
    forall k | 0 <= k < |pieces|
      ensures forall i :: 0 <= i < |pieces[k].classes| ==> IsClassName(pieces[k].classes[i])
    {
      ClassesNamed(marks, offset, pieces[k].from);
      assert pieces[k].classes == ClassesAt(marks, offset, pieces[k].from);
    }
    HtmlSeen(text, pieces, []);
    assert Html(text, pieces) + [] == Html(text, pieces);
    NothingSeen();
    assert Shown(text, pieces) + [] == Shown(text, pieces);
  }

  lemma NothingSeen()
    ensures Seen([], []) == []
  {
  }
}
