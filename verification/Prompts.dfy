// The part of a document a model is shown around what it is to rewrite.
module Prompts {
  import opened Wrappers
  import opened Tree
  import opened Edits
  import opened PlainText
  import opened PlainLaws
  import Text

  const CHARS_PER_TOKEN: nat := 3

  const OMITTED := "\n[\U{2026}]\n"

  datatype Context = Context(before: string, selection: string, after: string, truncated: bool)

  datatype Shown = Shown(context: Context) | NothingSelected | TooLong

  function Floor(budget: nat, share: real): (n: nat)
    requires 0.0 <= share <= 1.0
    ensures n <= budget && n as real <= budget as real * share < n as real + 1.0
  {
    ShareBounds(budget as real, share);
    (budget as real * share).Floor
  }

  lemma ShareBounds(x: real, share: real)
    requires 0.0 <= share <= 1.0 && x >= 0.0
    ensures 0.0 <= x * share <= x
  {
    assert x * share <= x * 1.0;
  }

  function Least(a: nat, b: nat): nat {
    if a < b then a else b
  }

  function KeepEnds(text: string, budget: nat, share: real): (string, bool)
    requires 0.0 <= share <= 1.0
  {
    if |text| <= budget then (text, false)
    else
      var head := Floor(budget, share);
      var tail := budget - head;
      (text[..head] + OMITTED + (if tail > 0 then text[|text| - tail..] else ""), true)
  }

  // `kept` is the whole of a text, or `head` of its start and `tail` of its end.
  predicate Ends(text: string, kept: string, head: nat, tail: nat) {
    || (kept == text && head == |text| && tail == 0)
    || (head + tail < |text| && kept == text[..head] + OMITTED + text[|text| - tail..])
  }

  predicate Opening(text: string, kept: string, head: nat) {
    head <= |text| && kept == if head < |text| then text[..head] + OMITTED else text
  }

  lemma KeptEnds(text: string, budget: nat, share: real) returns (head: nat, tail: nat)
    requires 0.0 <= share <= 1.0
    ensures Ends(text, KeepEnds(text, budget, share).0, head, tail)
    ensures head + tail == if |text| <= budget then |text| else budget
    ensures |text| > budget ==> head == Floor(budget, share)
    ensures KeepEnds(text, budget, share).1 <==> |text| > budget
  {
    if |text| <= budget {
      head, tail := |text|, 0;
    } else {
      head := Floor(budget, share);
      tail := budget - head;
      assert text[|text|..] == "";
    }
  }

  // What is kept around a selection: `head` and `tail` of what is before it and
  // `more` of what is after, as much as the budget leaves room for.
  predicate KeptAround(text: string, start: nat, end: nat, budget: nat, c: Context, head: nat, tail: nat, more: nat)
    requires start <= end <= |text| && end - start <= budget
  {
    && c.selection == text[start..end]
    && (c.truncated <==> |text| > budget)
    && (!c.truncated ==> c.before + c.selection + c.after == text)
    && Ends(text[..start], c.before, head, tail) && Opening(text[end..], c.after, more)
    && head + tail + (end - start) + more == (if |text| <= budget then |text| else budget)
    && (head + tail < start ==> head as real <= (head + tail) as real * 0.4 < head as real + 1.0)
    && (c.truncated ==>
          var room := budget - (end - start);
          more == Least(|text| - end, if room / 3 < room - start then room - start else room / 3))
  }

  // The selection is never cut, and the rest is cut only when it must be and
  // then fills the whole of the budget.
  method AroundSelection(text: string, start: nat, end: nat, budget: nat)
    returns (shown: Shown, ghost head: nat, ghost tail: nat, ghost more: nat)
    requires start <= end <= |text|
    ensures shown.TooLong? <==> end - start > budget
    ensures !shown.NothingSelected?
    ensures shown.Shown? ==> KeptAround(text, start, end, budget, shown.context, head, tail, more)
  {
    hide KeepEnds, Floor, Ends, Opening;
    head, tail, more := 0, 0, 0;
    var selection := text[start..end];
    if |selection| > budget {
      return TooLong, 0, 0, 0;
    }
    var before, after := text[..start], text[end..];
    var room := budget - |selection|;
    if |before| + |after| <= room {
      AllKept(text, start, end, budget);
      return Shown(Context(before, selection, after, false)), |before|, 0, |after|;
    }
    var afterRoom := Least(|after|, room / 3);
    var beforeRoom: nat := room - afterRoom;
    if beforeRoom > |before| {
      var spare := afterRoom + beforeRoom - |before|;
      afterRoom := Least(|after|, spare);
      beforeRoom := |before|;
    }
    var kept := KeepEnds(before, beforeRoom, 0.4).0;
    head, tail := KeptEnds(before, beforeRoom, 0.4);
    more := afterRoom;
    var opening := after[..afterRoom] + (if afterRoom < |after| then OMITTED else "");
    OpensWith(after, afterRoom);
    shown := Shown(Context(kept, selection, opening, true));
  }

  lemma AllKept(text: string, start: nat, end: nat, budget: nat)
    requires start <= end <= |text| <= budget
    ensures KeptAround(text, start, end, budget, Context(text[..start], text[start..end], text[end..], false),
                       start, 0, |text| - end)
  {
    hide Floor;
    assert text[..start] + text[start..end] + text[end..] == text;
  }

  lemma OpensWith(text: string, head: nat)
    requires head <= |text|
    ensures Opening(text, text[..head] + (if head < |text| then OMITTED else ""), head)
  {
    assert text[..|text|] + "" == text;
  }

  predicate Blank(s: string) {
    Text.Strip(s, Text.IsSpace) == ""
  }

  // The context of a rewrite, or why there is none.
  method RewriteContext(doc: seq<Node>, from: Option<nat>, to: Option<nat>, budgetTokens: nat) returns (shown: Shown)
    requires Normal(doc)
    ensures from.None? || to.None? ==> shown.NothingSelected?
    ensures from.Some? && to.Some? ==>
              var plain, budget := ToPlain(doc), budgetTokens * CHARS_PER_TOKEN;
              var start, end := Offset(plain, from.value, true), Offset(plain, to.value, false);
              && 0 <= start <= |plain.text| && 0 <= end <= |plain.text|
              && (shown.NothingSelected? <==> end <= start || Blank(plain.text[start..end]))
              && (shown.TooLong? <==> start < end && !Blank(plain.text[start..end]) && end - start > budget)
              && (shown.Shown? ==>
                    exists head: nat, tail: nat, more: nat ::
                      KeptAround(plain.text, start, end, budget, shown.context, head, tail, more))
  {
    var plain := ToPlain(doc);
    if from.None? || to.None? {
      return NothingSelected;
    }
    var start, end := Offset(plain, from.value, true), Offset(plain, to.value, false);
    RunsAreSound(doc);
    OffsetBounds(plain, from.value, true, ContentSize(doc));
    OffsetBounds(plain, to.value, false, ContentSize(doc));
    if end <= start || Blank(plain.text[start..end]) {
      return NothingSelected;
    }
    ghost var head, tail, more;
    shown, head, tail, more := AroundSelection(plain.text, start, end, budgetTokens * CHARS_PER_TOKEN);
  }
}
