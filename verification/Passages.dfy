// Units packed into overlapping passages, counted whole.
module Passages {
  import opened Wrappers
  import opened Chunking
  import Text

  // ----- packing -----

  datatype Span = Span(first: nat, last: nat)

  // The tokens of the units from `i` up to `j`.
  function Sum(units: seq<Unit>, i: nat, j: nat): nat
    requires j <= |units|
  {
    if j <= i then 0 else Sum(units, i, j - 1) + units[j - 1].tokens
  }

  // As many units as fit the target, and no fewer than one.
  predicate Full(units: seq<Unit>, target: nat, s: Span) {
    && s.first <= s.last < |units|
    && (s.first == s.last || Sum(units, s.first, s.last + 1) <= target)
    && (s.last + 1 == |units| || Sum(units, s.first, s.last + 2) > target)
  }

  // The next span starts later, with as many of the units before it as fit the
  // overlap.
  predicate Follows(units: seq<Unit>, overlap: nat, s: Span, next: Span) {
    && s.first < next.first <= s.last + 1 < |units|
    && (next.first == s.last + 1 || Sum(units, next.first, s.last + 1) <= overlap)
    && (next.first == s.first + 1 || Sum(units, next.first - 1, s.last + 1) > overlap)
  }

  ghost predicate Packed(units: seq<Unit>, target: nat, overlap: nat, spans: seq<Span>) {
    && (forall k :: 0 <= k < |spans| ==> Full(units, target, spans[k]))
    && (forall k :: 0 <= k < |spans| - 1 ==> Follows(units, overlap, spans[k], spans[k + 1]))
    && (units == [] <==> spans == [])
    && (spans != [] ==> spans[0].first == 0)
  }

  lemma {:induction false} SumFront(units: seq<Unit>, i: nat, j: nat)
    requires i < j <= |units|
    ensures Sum(units, i, j) == units[i].tokens + Sum(units, i + 1, j)
    decreases j
  {
    if i < j - 1 {
      SumFront(units, i, j - 1);
    }
  }

  method Fill(units: seq<Unit>, target: nat, first: nat) returns (last: nat)
    requires first < |units|
    ensures Full(units, target, Span(first, last))
  {
    last := first;
    var total := units[first].tokens;
    assert Sum(units, first, first + 1) == total;
    while last + 1 < |units| && total + units[last + 1].tokens <= target
      invariant first <= last < |units| && total == Sum(units, first, last + 1)
      invariant last == first || total <= target
    {
      last := last + 1;
      total := total + units[last].tokens;
    }
  }

  method StepBack(units: seq<Unit>, overlap: nat, first: nat, last: nat) returns (following: nat)
    requires first <= last < |units| && last + 1 < |units|
    ensures forall end :: Follows(units, overlap, Span(first, last), Span(following, end))
  {
    following := last + 1;
    var carried := 0;
    while following - 1 > first && carried + units[following - 1].tokens <= overlap
      invariant first < following <= last + 1 && carried == Sum(units, following, last + 1)
      invariant following == last + 1 || carried <= overlap
    {
      SumFront(units, following - 1, last + 1);
      following := following - 1;
      carried := carried + units[following].tokens;
    }
    if following - 1 > first {
      SumFront(units, following - 1, last + 1);
    }
  }

  method Pack(units: seq<Unit>, target: nat, overlap: nat) returns (spans: seq<Span>)
    ensures Packed(units, target, overlap, spans)
    ensures spans != [] ==> spans[|spans| - 1].last == |units| - 1
  {
    spans := [];
    var first := 0;
    while first < |units|
      invariant Packed(units, target, overlap, spans) || (spans == [] && first == 0)
      invariant spans == [] ==> first == 0
      invariant spans != [] ==> first < |units|
                                && forall end :: Follows(units, overlap, spans[|spans| - 1], Span(first, end))
      decreases |units| - first
    {
      hide Full, Sum;
      var last := Fill(units, target, first);
      SpanBounds(units, target, Span(first, last));
      ghost var before := spans;
      assert spans != [] ==> Follows(units, overlap, spans[|spans| - 1], Span(first, last));
      spans := spans + [Span(first, last)];
      if last + 1 >= |units| {
        break;
      }
      first := StepBack(units, overlap, first, last);
      assert Follows(units, overlap, spans[|spans| - 1], Span(first, 0));
    }
  }

  lemma SpanBounds(units: seq<Unit>, target: nat, s: Span)
    requires Full(units, target, s)
    ensures s.first <= s.last < |units|
  {
  }

  // ----- laws of packing -----

  // Spans start later and later, and never end before the one before.
  lemma {:induction false} SpansAdvance(units: seq<Unit>, target: nat, overlap: nat, spans: seq<Span>, i: nat, j: nat)
    requires Packed(units, target, overlap, spans) && i < j < |spans|
    ensures spans[i].first < spans[j].first && spans[i].last <= spans[j].last < |units|
    decreases j
  {
    hide Sum;
    SpanBounds(units, target, spans[j]);
    var s, next := spans[j - 1], spans[j];
    assert Follows(units, overlap, s, next) && Full(units, target, s) && Full(units, target, next);
    if next.last < s.last {
      SumInside(units, s.first, next.first, next.last + 2, s.last + 1);
      assert false;
    }
    if i < j - 1 {
      SpansAdvance(units, target, overlap, spans, i, j - 1);
    }
  }

  lemma {:induction false} SumInside(units: seq<Unit>, i: nat, k: nat, l: nat, j: nat)
    requires i <= k <= l <= j <= |units|
    ensures Sum(units, k, l) <= Sum(units, i, j)
    decreases j - l, k - i
  {
    if l < j {
      SumInside(units, i, k, l, j - 1);
    } else if i < k {
      SumInside(units, i + 1, k, l, j);
      if i < j {
        SumFront(units, i, j);
      }
    }
  }

  // Every unit is in a span.
  lemma {:induction false} Spanned(units: seq<Unit>, target: nat, overlap: nat, spans: seq<Span>, u: nat, k: nat)
    returns (found: nat)
    requires Packed(units, target, overlap, spans) && k < |spans| && u <= spans[k].last
    ensures found < |spans| && spans[found].first <= u <= spans[found].last
    decreases k
  {
    hide Sum;
    if k > 0 && u < spans[k].first {
      assert Follows(units, overlap, spans[k - 1], spans[k]);
      found := Spanned(units, target, overlap, spans, u, k - 1);
    } else {
      found := k;
    }
  }

  // A span can lie wholly inside the one before it.
  lemma SpanInsideSpan()
    ensures exists units: seq<Unit>, spans: seq<Span> :: Packed(units, 3, 2, spans) && |spans| == 3 && spans[1].last == spans[0].last
  {
    var units := [Unit(0, 1, 1), Unit(1, 2, 1), Unit(2, 5, 3)];
    var spans := [Span(0, 1), Span(1, 1), Span(2, 2)];
    assert Sum(units, 0, 1) == 1 && Sum(units, 0, 2) == 2 && Sum(units, 0, 3) == 5;
    assert Sum(units, 1, 2) == 1 && Sum(units, 1, 3) == 4 && Sum(units, 0, 2) == 2;
    assert Full(units, 3, spans[0]) && Full(units, 3, spans[1]) && Full(units, 3, spans[2]);
    assert Follows(units, 2, spans[0], spans[1]) && Follows(units, 2, spans[1], spans[2]);
    assert Packed(units, 3, 2, spans);
  }

  // ----- page numbers -----

  // How many pages start at or before a place, by bisection.
  function BisectRight(pages: seq<nat>, start: nat, low: nat, high: nat): nat
    requires low <= high <= |pages|
    decreases high - low
  {
    if low == high then low
    else
      var middle := (low + high) / 2;
      if start < pages[middle] then BisectRight(pages, start, low, middle)
      else BisectRight(pages, start, middle + 1, high)
  }

  function PageOf(pages: seq<nat>, start: nat): Option<nat> {
    if pages == [] then None else Some(BisectRight(pages, start, 0, |pages|))
  }

  predicate Sorted(pages: seq<nat>) {
    forall i, j :: 0 <= i < j < |pages| ==> pages[i] <= pages[j]
  }

  lemma {:induction false} BisectLaw(pages: seq<nat>, start: nat, low: nat, high: nat)
    requires Sorted(pages) && low <= high <= |pages|
    requires forall i :: 0 <= i < low ==> pages[i] <= start
    requires forall i :: high <= i < |pages| ==> start < pages[i]
    ensures var page := BisectRight(pages, start, low, high);
            && page <= |pages|
            && (forall i :: 0 <= i < page ==> pages[i] <= start)
            && (forall i :: page <= i < |pages| ==> start < pages[i])
    decreases high - low
  {
    if low < high {
      var middle := (low + high) / 2;
      if start < pages[middle] {
        BisectLaw(pages, start, low, middle);
      } else {
        BisectLaw(pages, start, middle + 1, high);
      }
    }
  }

  // A passage is on the last page that starts at or before it.
  lemma PageHolds(pages: seq<nat>, start: nat)
    requires Sorted(pages) && pages != []
    ensures var page := PageOf(pages, start).value;
            && page <= |pages|
            && (forall i :: 0 <= i < page ==> pages[i] <= start)
            && (forall i :: page <= i < |pages| ==> start < pages[i])
  {
    BisectLaw(pages, start, 0, |pages|);
  }

  // ----- passages counted whole -----

  predicate Whole(text: string, units: seq<Unit>) {
    && (forall i :: 0 <= i < |units| ==> units[i].start < units[i].end <= |text|)
    && (forall i, j :: 0 <= i < j < |units| ==> units[i].end <= units[j].start)
  }

  function Verified(text: string, units: seq<Unit>, count: Counter, max: nat, pages: seq<nat>): seq<Draft>
    requires units != [] && Whole(text, units)
    decreases |units|
  {
    var start, end := units[0].start, units[|units| - 1].end;
    var content := text[start..end];
    var tokens := count(content);
    if tokens > max && |units| > 1 then
      var half := |units| / 2;
      Verified(text, units[..half], count, max, pages) + Verified(text, units[half..], count, max, pages)
    else
      [Draft(0, content, start, end, PageOf(pages, start), tokens)]
  }

  // An exact slice, with its true count, that fits unless it is one character.
  ghost predicate Passage(text: string, count: Counter, max: nat, pages: seq<nat>, d: Draft) {
    && d.start < d.end <= |text| && d.content == text[d.start..d.end]
    && d.tokens == count(d.content) && (d.tokens <= max || d.end == d.start + 1)
    && d.page == PageOf(pages, d.start)
  }

  predicate InDraft(drafts: seq<Draft>, p: nat) {
    exists i :: 0 <= i < |drafts| && drafts[i].start <= p < drafts[i].end
  }

  // From the first unit to the last: in order, apart, and over every unit.
  ghost predicate Passages(text: string, units: seq<Unit>, count: Counter, max: nat, pages: seq<nat>, drafts: seq<Draft>)
    requires units != []
  {
    && drafts != [] && drafts[0].start == units[0].start && drafts[|drafts| - 1].end == units[|units| - 1].end
    && (forall i :: 0 <= i < |drafts| ==> Passage(text, count, max, pages, drafts[i]))
    && (forall i, j :: 0 <= i < j < |drafts| ==> drafts[i].end <= drafts[j].start)
    && forall p: nat :: InUnit(units, p) ==> InDraft(drafts, p)
  }

  lemma SplitPart(text: string, count: Counter, limit: nat, units: seq<Unit>, i: nat, j: nat)
    requires Split(text, count, limit, units, 0, |text|) && i <= j <= |units|
    ensures Split(text, count, limit, units[i..j], 0, |text|) && Whole(text, units[i..j])
  {
    hide Exact;
    var part := units[i..j];
    forall k | 0 <= k < |part|
      ensures part[k] == units[i + k] && part[k].start < part[k].end
    {
      SplitOne(text, count, limit, units, i + k);
    }
  }

  lemma SplitOne(text: string, count: Counter, limit: nat, units: seq<Unit>, k: nat)
    requires Split(text, count, limit, units, 0, |text|) && k < |units|
    ensures units[k].start < units[k].end
  {
  }

  lemma OnePassage(text: string, units: seq<Unit>, count: Counter, limit: nat, max: nat, pages: seq<nat>)
    requires units != [] && Split(text, count, limit, units, 0, |text|) && limit <= max
    requires var tokens := count(text[units[0].start..units[|units| - 1].end]); tokens <= max || |units| == 1
    ensures var start, end := units[0].start, units[|units| - 1].end;
            && start < end <= |text|
            && Passages(text, units, count, max, pages,
                        [Draft(0, text[start..end], start, end, PageOf(pages, start), count(text[start..end]))])
  {
    SplitOne(text, count, limit, units, 0);
    SplitOne(text, count, limit, units, |units| - 1);
    var start, end := units[0].start, units[|units| - 1].end;
    var d := Draft(0, text[start..end], start, end, PageOf(pages, start), count(text[start..end]));
    assert [d][0] == d;
    forall p: nat | InUnit(units, p)
      ensures InDraft([d], p)
    {
      var i :| 0 <= i < |units| && units[i].start <= p < units[i].end;
      SplitOne(text, count, limit, units, i);
      assert i < |units| - 1 ==> units[i].end <= units[|units| - 1].start;
      assert i > 0 ==> units[0].end <= units[i].start;
      assert [d][0].start <= p < [d][0].end;
    }
  }

  lemma InDraftConcat(a: seq<Draft>, b: seq<Draft>, p: nat)
    ensures InDraft(a + b, p) <==> InDraft(a, p) || InDraft(b, p)
  {
    if InDraft(a, p) {
      var i :| 0 <= i < |a| && a[i].start <= p < a[i].end;
      assert (a + b)[i] == a[i];
    }
    if InDraft(b, p) {
      var i :| 0 <= i < |b| && b[i].start <= p < b[i].end;
      assert (a + b)[|a| + i] == b[i];
    }
  }

  lemma {:induction false} DraftsWithin(drafts: seq<Draft>, i: nat)
    requires forall k :: 0 <= k < |drafts| ==> drafts[k].start < drafts[k].end
    requires forall k, l :: 0 <= k < l < |drafts| ==> drafts[k].end <= drafts[l].start
    requires i < |drafts|
    ensures drafts[0].start <= drafts[i].start && drafts[i].end <= drafts[|drafts| - 1].end
  {
    assert i > 0 ==> drafts[0].end <= drafts[i].start;
    assert i < |drafts| - 1 ==> drafts[i].end <= drafts[|drafts| - 1].start;
  }

  lemma PassagesJoined(text: string, a: seq<Unit>, b: seq<Unit>, count: Counter, max: nat, pages: seq<nat>,
                       left: seq<Draft>, right: seq<Draft>)
    requires a != [] && b != [] && a[|a| - 1].end <= b[0].start
    requires Passages(text, a, count, max, pages, left) && Passages(text, b, count, max, pages, right)
    ensures Passages(text, a + b, count, max, pages, left + right)
  {
    var both := left + right;
    forall i, j | 0 <= i < j < |both|
      ensures both[i].end <= both[j].start
    {
      if i < |left| <= j {
        assert Passage(text, count, max, pages, left[i]);
        DraftsWithin(left, i);
        DraftsWithin(right, j - |left|);
      }
    }
    forall p: nat | InUnit(a + b, p)
      ensures InDraft(both, p)
    {
      InUnitConcat(a, b, p);
      InDraftConcat(left, right, p);
    }
  }

  lemma WholeEnds(text: string, units: seq<Unit>)
    requires units != [] && Whole(text, units)
    ensures units[0].start <= units[|units| - 1].end <= |text|
  {
    assert |units| > 1 ==> units[0].end <= units[|units| - 1].start;
  }

  lemma Halves(text: string, count: Counter, limit: nat, units: seq<Unit>) returns (a: seq<Unit>, b: seq<Unit>)
    requires |units| > 1 && Split(text, count, limit, units, 0, |text|) && Whole(text, units)
    ensures a == units[..|units| / 2] && b == units[|units| / 2..] && a + b == units && a != [] && b != []
    ensures Split(text, count, limit, a, 0, |text|) && Whole(text, a)
    ensures Split(text, count, limit, b, 0, |text|) && Whole(text, b)
    ensures a[|a| - 1].end <= b[0].start
  {
    var half := |units| / 2;
    a, b := units[..half], units[half..];
    SplitPart(text, count, limit, units, 0, half);
    SplitPart(text, count, limit, units, half, |units|);
    assert units[0..half] == a && units[half..|units|] == b;
    hide Split;
  }

  lemma VerifiedHalves(text: string, units: seq<Unit>, count: Counter, max: nat, pages: seq<nat>)
    requires |units| > 1 && Whole(text, units) && units[0].start <= units[|units| - 1].end <= |text|
    requires Whole(text, units[..|units| / 2]) && Whole(text, units[|units| / 2..])
    requires count(text[units[0].start..units[|units| - 1].end]) > max
    ensures Verified(text, units, count, max, pages)
            == Verified(text, units[..|units| / 2], count, max, pages)
               + Verified(text, units[|units| / 2..], count, max, pages)
  {
    hide Whole;
  }

  lemma VerifiedWhole(text: string, units: seq<Unit>, count: Counter, max: nat, pages: seq<nat>)
    requires units != [] && Whole(text, units) && units[0].start <= units[|units| - 1].end <= |text|
    requires var tokens := count(text[units[0].start..units[|units| - 1].end]); tokens <= max || |units| == 1
    ensures var start, end := units[0].start, units[|units| - 1].end;
            Verified(text, units, count, max, pages)
            == [Draft(0, text[start..end], start, end, PageOf(pages, start), count(text[start..end]))]
  {
    hide Whole;
  }

  // Passages over the cap are halved until they fit; what they cover stays.
  lemma {:induction false} VerifiedLaw(text: string, units: seq<Unit>, count: Counter, limit: nat, max: nat, pages: seq<nat>)
    requires units != [] && Split(text, count, limit, units, 0, |text|) && limit <= max && Whole(text, units)
    ensures Passages(text, units, count, max, pages, Verified(text, units, count, max, pages))
    decreases |units|
  {
    WholeEnds(text, units);
    hide *;
    if count(text[units[0].start..units[|units| - 1].end]) > max && |units| > 1 {
      var a, b := Halves(text, count, limit, units);
      VerifiedHalves(text, units, count, max, pages);
      VerifiedLaw(text, a, count, limit, max, pages);
      VerifiedLaw(text, b, count, limit, max, pages);
      PassagesJoined(text, a, b, count, max, pages, Verified(text, a, count, max, pages), Verified(text, b, count, max, pages));
    } else {
      VerifiedWhole(text, units, count, max, pages);
      OnePassage(text, units, count, limit, max, pages);
    }
  }

  // ----- the whole text -----

  function Group(text: string, units: seq<Unit>, s: Span, count: Counter, max: nat, pages: seq<nat>): seq<Draft>
    requires s.first <= s.last < |units| && Whole(text, units[s.first..s.last + 1])
  {
    Verified(text, units[s.first..s.last + 1], count, max, pages)
  }

  function Numbered(drafts: seq<Draft>): seq<Draft> {
    seq(|drafts|, i requires 0 <= i < |drafts| => drafts[i].(index := i))
  }

  // The drafts of the spans, one group after another.
  ghost predicate Grouped(text: string, units: seq<Unit>, spans: seq<Span>, count: Counter, max: nat, pages: seq<nat>,
                          drafts: seq<Draft>)
    decreases |spans|
  {
    if spans == [] then drafts == []
    else
      var s := spans[|spans| - 1];
      && s.first <= s.last < |units| && Whole(text, units[s.first..s.last + 1])
      && var group := Group(text, units, s, count, max, pages);
         && |group| <= |drafts| && drafts[|drafts| - |group|..] == group
         && Grouped(text, units, spans[..|spans| - 1], count, max, pages, drafts[..|drafts| - |group|])
  }

  method Units(text: string, count: Counter, limit: nat, paragraph: Separator, separators: seq<Separator>)
    returns (units: seq<Unit>)
    requires Separates(paragraph, text) && AllSeparate(separators, text)
    ensures Split(text, count, limit, units, 0, |text|) && Keeps(text, units, 0, |text|)
    ensures InOrder(paragraph.find(text, 0, |text|), 0, |text|)
    ensures FittedAll(text, count, limit, units, PiecesOf(text, 0, paragraph.find(text, 0, |text|), |text|), separators)
  {
    hide Split, Keeps, Separates, AllSeparate, FittedAll, PiecesOf;
    FindsInOrder(paragraph, text, 0, |text|);
    var pieces := Pieces(text, 0, |text|, paragraph);
    units := FitAll(text, count, limit, 0, |text|, paragraph, separators, pieces);
  }

  // Every draft is numbered in turn and is an exact slice with its true count,
  // over the cap only if it is a single character; every character that is
  // neither blank nor a bracket or quote closing a sentence is in some draft.
  method ChunkText(text: string, pages: seq<nat>, count: Counter, targetTokens: nat, overlap: nat, max: nat,
                   paragraph: Separator, separators: seq<Separator>)
    returns (drafts: seq<Draft>, ghost units: seq<Unit>, ghost spans: seq<Span>, ghost raw: seq<Draft>)
    requires Separates(paragraph, text) && AllSeparate(separators, text)
    ensures forall i :: 0 <= i < |drafts| ==> drafts[i].index == i && Passage(text, count, max, pages, drafts[i])
    ensures forall p :: 0 <= p < |text| && !Text.IsSpace(text[p]) ==> InDraft(drafts, p) || Closes(text, p)
    ensures var target := if targetTokens < max then targetTokens else max;
            && Split(text, count, target, units, 0, |text|) && Packed(units, target, overlap, spans)
            && InOrder(paragraph.find(text, 0, |text|), 0, |text|)
            && FittedAll(text, count, target, units, PiecesOf(text, 0, paragraph.find(text, 0, |text|), |text|), separators)
    ensures Grouped(text, units, spans, count, max, pages, raw) && drafts == Numbered(raw)
  {
    hide Split, Keeps, Passage, Passages, Packed, InDraft, Whole, Verified, FittedAll, PiecesOf;
    var target := if targetTokens < max then targetTokens else max;
    var found := Units(text, count, target, paragraph, separators);
    var packed := Pack(found, target, overlap);
    units, spans := found, packed;
    var all: seq<Draft> := [];
    assert packed[..0] == [];
    for k := 0 to |packed|
      invariant Grouped(text, found, packed[..k], count, max, pages, all)
      invariant forall i :: 0 <= i < |all| ==> Passage(text, count, max, pages, all[i])
      invariant forall l, p :: 0 <= l < k && InSpan(found, packed[l], p) ==> InDraft(all, p)
    {
      SpanFits(found, target, overlap, packed, k);
      var s := packed[k];
      SplitPart(text, count, target, found, s.first, s.last + 1);
      var group := Verified(text, found[s.first..s.last + 1], count, max, pages);
      VerifiedLaw(text, found[s.first..s.last + 1], count, target, max, pages);
      GroupAdded(text, found, packed, k, count, max, pages, all, group);
      all := all + group;
    }
    assert packed[..|packed|] == packed;
    raw := all;
    drafts := Numbered(all);
    NumberedKeeps(text, count, max, pages, all);
    AllInDrafts(text, found, target, overlap, packed, all);
  }

  predicate InSpan(units: seq<Unit>, s: Span, p: nat) {
    s.first <= s.last < |units| && InUnit(units[s.first..s.last + 1], p)
  }

  lemma SpanFits(units: seq<Unit>, target: nat, overlap: nat, spans: seq<Span>, k: nat)
    requires Packed(units, target, overlap, spans) && k < |spans|
    ensures spans[k].first <= spans[k].last < |units|
  {
    SpanBounds(units, target, spans[k]);
  }

  lemma GroupAdded(text: string, units: seq<Unit>, spans: seq<Span>, k: nat, count: Counter, max: nat, pages: seq<nat>,
                   all: seq<Draft>, group: seq<Draft>)
    requires k < |spans| && spans[k].first <= spans[k].last < |units|
    requires var part := units[spans[k].first..spans[k].last + 1];
             Whole(text, part) && group == Verified(text, part, count, max, pages)
             && Passages(text, part, count, max, pages, group)
    requires Grouped(text, units, spans[..k], count, max, pages, all)
    requires forall l, p :: 0 <= l < k && InSpan(units, spans[l], p) ==> InDraft(all, p)
    ensures Grouped(text, units, spans[..k + 1], count, max, pages, all + group)
    ensures forall l, p :: 0 <= l < k + 1 && InSpan(units, spans[l], p) ==> InDraft(all + group, p)
    ensures forall i :: 0 <= i < |group| ==> Passage(text, count, max, pages, group[i])
  {
    hide Verified, Passage, Whole, InDraft, InUnit;
    assert spans[..k + 1][..k] == spans[..k];
    assert (all + group)[|all|..] == group && (all + group)[..|all|] == all;
    forall l, p | 0 <= l < k + 1 && InSpan(units, spans[l], p)
      ensures InDraft(all + group, p)
    {
      InDraftConcat(all, group, p);
    }
  }

  lemma NumberedKeeps(text: string, count: Counter, max: nat, pages: seq<nat>, all: seq<Draft>)
    requires forall i :: 0 <= i < |all| ==> Passage(text, count, max, pages, all[i])
    ensures forall i :: 0 <= i < |all| ==> Numbered(all)[i].index == i && Passage(text, count, max, pages, Numbered(all)[i])
    ensures forall p: nat :: InDraft(all, p) ==> InDraft(Numbered(all), p)
  {
    forall p: nat | InDraft(all, p)
      ensures InDraft(Numbered(all), p)
    {
      var i :| 0 <= i < |all| && all[i].start <= p < all[i].end;
      assert Numbered(all)[i].start <= p < Numbered(all)[i].end;
    }
  }

  lemma AllInDrafts(text: string, units: seq<Unit>, target: nat, overlap: nat, spans: seq<Span>, all: seq<Draft>)
    requires Packed(units, target, overlap, spans) && Keeps(text, units, 0, |text|)
    requires spans != [] ==> spans[|spans| - 1].last == |units| - 1
    requires forall l, p :: 0 <= l < |spans| && InSpan(units, spans[l], p) ==> InDraft(all, p)
    ensures forall p :: 0 <= p < |text| && !Text.IsSpace(text[p]) ==> InDraft(all, p) || Closes(text, p)
  {
    hide Full, Follows, InDraft, Closes;
    forall p: nat | InUnit(units, p)
      ensures InDraft(all, p)
    {
      var u :| 0 <= u < |units| && units[u].start <= p < units[u].end;
      var k := Spanned(units, target, overlap, spans, u, |spans| - 1);
      SpanFits(units, target, overlap, spans, k);
      var s := spans[k];
      assert units[s.first..s.last + 1][u - s.first] == units[u];
      assert InSpan(units, s, p);
    }
  }
}
