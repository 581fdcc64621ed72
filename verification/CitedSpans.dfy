// A cited chunk followed over the pages it runs across.
module CitedSpans {
  import opened Wrappers
  import opened Match
  import Seqs

  // ----- squeezing in parts -----

  function Shifted(origin: seq<nat>, offset: nat): seq<nat> {
    seq(|origin|, i requires 0 <= i < |origin| => origin[i] + offset)
  }

  function Appended(a: Squeezed, b: Squeezed, offset: nat): Squeezed {
    Squeezed(a.text + b.text, a.origin + Shifted(b.origin, offset))
  }

  lemma {:induction false} SqueezeParts(a: Units, b: Units, lower: Lower)
    ensures Squeeze(a + b, lower) == Appended(Squeeze(a, lower), Squeeze(b, lower), |a|)
    decreases |b|
  {
    hide Squeeze, Appended, Folded, Repeat;
    if b == [] {
      NothingSqueezed(lower);
      NothingAppended(Squeeze(a, lower), |a|);
      assert a + b == a;
    } else {
      var n := |b| - 1;
      var front, last := b[..n], Folded(b[n], lower);
      SqueezeParts(a, front, lower);
      assert (a + b)[..|a| + n] == a + front && (a + b)[|a| + n] == b[n];
      SqueezeStep(a + b, lower);
      SqueezeStep(b, lower);
      AppendedMore(Squeeze(a, lower), Squeeze(front, lower), last, n, |a|);
    }
  }

  lemma NothingAppended(a: Squeezed, offset: nat)
    ensures Appended(a, Squeezed([], []), offset) == a
  {
    assert a.text + [] == a.text && a.origin + Shifted([], offset) == a.origin;
  }

  lemma NothingSqueezed(lower: Lower)
    ensures Squeeze([], lower) == Squeezed([], [])
  {
  }

  lemma AppendedMore(a: Squeezed, b: Squeezed, last: Units, n: nat, offset: nat)
    ensures var more := Squeezed(b.text + last, b.origin + Repeat(n, |last|));
            var front := Appended(a, b, offset);
            Appended(a, more, offset) == Squeezed(front.text + last, front.origin + Repeat(offset + n, |last|))
  {
    Seqs.Assoc(a.text, b.text, last);
    var shifted := Shifted(b.origin, offset);
    assert Shifted(b.origin + Repeat(n, |last|), offset) == shifted + Repeat(offset + n, |last|);
    Seqs.Assoc(a.origin, shifted, Repeat(offset + n, |last|));
  }

  lemma OneMore(a: Units, c: nat, b: Units, lower: Lower)
    ensures Squeeze([c], lower).text == Folded(c, lower)
    ensures Squeeze(a + [c] + b, lower).text
            == Squeeze(a, lower).text + Folded(c, lower) + Squeeze(b, lower).text
    ensures Squeeze(a + b, lower).text == Squeeze(a, lower).text + Squeeze(b, lower).text
  {
    hide Squeeze, Folded;
    SqueezeParts(a + [c], b, lower);
    SqueezeParts(a, [c], lower);
    SqueezeParts(a, b, lower);
    assert [c][..0] == [];
    NothingSqueezed(lower);
    SqueezeStep([c], lower);
    assert [] + Folded(c, lower) == Folded(c, lower);
  }

  // JavaScript's white space, a soft hyphen, a zero-width space and a bar.
  predicate PassedOver(c: nat) {
    c in {9, 10, 11, 12, 13, 0x20, 0x7C, 0xA0, 0xAD, 0x1680, 0x2000, 0x2001, 0x2002, 0x2003, 0x2004, 0x2005, 0x2006,
          0x2007, 0x2008, 0x2009, 0x200A, 0x200B, 0x2028, 0x2029, 0x202F, 0x205F, 0x3000, 0xFEFF}
  }

  lemma IgnoredAre(c: nat)
    ensures Ignored(c) <==> PassedOver(c)
  {
  }

  lemma NoneBetween(a: Units, x: Units, b: Units)
    ensures a + x + b == a + b <==> x == []
  {
    if x == [] {
      assert a + x == a;
    } else {
      assert |a + x + b| > |a + b|;
    }
  }

  // A character makes no difference to a text exactly when it is one of those;
  // any other counts by its lower case.
  lemma PassedOverExactly(a: Units, c: nat, b: Units, lower: Lower)
    requires lower(c) != []
    ensures Squeeze(a + [c] + b, lower).text == Squeeze(a + b, lower).text <==> PassedOver(c)
    ensures !PassedOver(c) ==> Squeeze([c], lower).text == lower(c)
  {
    hide Squeeze, Ignored, PassedOver;
    OneMore(a, c, b, lower);
    IgnoredAre(c);
    NoneBetween(Squeeze(a, lower).text, Folded(c, lower), Squeeze(b, lower).text);
  }

  // `p` of the origins come before a place.
  predicate SplitsAt(origin: seq<nat>, p: nat, place: nat) {
    && p <= |origin|
    && (forall k :: 0 <= k < p ==> origin[k] < place)
    && forall k :: p <= k < |origin| ==> place <= origin[k]
  }

  lemma SplitAt(source: Units, lower: Lower, place: nat)
    requires place <= |source|
    ensures var s, a, b := Squeeze(source, lower), Squeeze(source[..place], lower), Squeeze(source[place..], lower);
            s.text == a.text + b.text && SplitsAt(s.origin, |a.text|, place)
  {
    hide Squeeze, Folded, Appended, SplitsAt;
    var a, b := Squeeze(source[..place], lower), Squeeze(source[place..], lower);
    SqueezeParts(source[..place], source[place..], lower);
    SqueezeTraces(source[..place], lower);
    assert source[..place] + source[place..] == source;
    assert forall k :: 0 <= k < |a.origin| ==> a.origin[k] < place;
    AppendedSplits(a, b, place);
  }

  lemma AppendedSplits(a: Squeezed, b: Squeezed, place: nat)
    requires |a.text| == |a.origin| && forall k :: 0 <= k < |a.origin| ==> a.origin[k] < place
    ensures var s := Appended(a, b, place); s.text == a.text + b.text && SplitsAt(s.origin, |a.text|, place)
  {
    var origin := Appended(a, b, place).origin;
    forall k | 0 <= k < |origin|
      ensures if k < |a.origin| then origin[k] < place else place <= origin[k]
    {
    }
  }

  // What is left of a chunk squeezes to what is left of its needle exactly when
  // the cut does not fall inside a character that folds to two.
  lemma RestExactly(chunk: Units, lower: Lower, length: nat)
    requires length <= |Squeeze(chunk, lower).text|
    ensures var s := Squeeze(chunk, lower);
            Squeeze(RestOf(chunk, lower, length), lower).text == s.text[length..]
            <==> length == 0 || length == |s.text| || s.origin[length - 1] != s.origin[length]
  {
    hide Squeeze, Folded;
    NothingSqueezed(lower);
    var s := Squeeze(chunk, lower);
    if length < |s.text| {
      var place := s.origin[length];
      OriginInside(chunk, lower, length);
      SplitAt(chunk, lower, place);
      SqueezeTraces(chunk, lower);
      SuffixExactly(s, Squeeze(chunk[..place], lower).text, Squeeze(chunk[place..], lower).text, place, length);
    }
  }

  lemma SuffixExactly(s: Squeezed, a: Units, b: Units, place: nat, length: nat)
    requires |s.text| == |s.origin| && length < |s.text| && s.text == a + b
    requires SplitsAt(s.origin, |a|, place) && s.origin[length] == place
    requires length > 0 ==> s.origin[length - 1] <= place
    ensures b == s.text[length..] <==> length == 0 || s.origin[length - 1] != place
  {
    assert |a| <= length;
    assert |b| == |s.text| - |a| && |s.text[length..]| == |s.text| - length;
    if length == |a| {
      assert s.text[|a|..] == b;
    }
  }

  predicate Rises(origin: seq<nat>) {
    forall i, j :: 0 <= i < j < |origin| ==> origin[i] < origin[j]
  }

  lemma {:induction false} OriginsRise(source: Units, lower: Lower)
    requires OneToOne(lower)
    ensures Rises(Squeeze(source, lower).origin)
    decreases |source|
  {
    if source != [] {
      var n := |source| - 1;
      OriginsRise(source[..n], lower);
      SqueezeStep(source, lower);
      SqueezeTraces(source[..n], lower);
      assert |Folded(source[n], lower)| <= 1;
      hide Squeeze, Folded, OneToOne;
    }
  }

  lemma OneSplit(origin: seq<nat>, p: nat, at: nat)
    requires Rises(origin) && at < |origin|
    ensures SplitsAt(origin, p, origin[at]) ==> p == at
    ensures SplitsAt(origin, p, origin[at] + 1) ==> p == at + 1
  {
    assert p < at ==> origin[p] < origin[at];
    assert at + 1 < |origin| ==> origin[at] < origin[at + 1];
  }

  // The text under a span squeezes to what was matched.
  lemma SpanHolds(source: Units, lower: Lower, at: nat, length: nat)
    requires OneToOne(lower) && length > 0 && at + length <= |Squeeze(source, lower).text|
    ensures var s := Squeeze(source, lower);
            var start, end := s.origin[at], s.origin[at + length - 1] + 1;
            start <= end <= |source| && Squeeze(source[start..end], lower).text == s.text[at..at + length]
  {
    hide Squeeze, OneToOne, Folded;
    var s := Squeeze(source, lower);
    var start, end := s.origin[at], s.origin[at + length - 1] + 1;
    OriginsRise(source, lower);
    OriginInside(source, lower, at + length - 1);
    assert start < end by {
      assert length > 1 ==> s.origin[at] < s.origin[at + length - 1];
    }
    hide Rises, SplitsAt;
    SplitAt(source, lower, start);
    OneSplit(s.origin, |Squeeze(source[..start], lower).text|, at);
    SplitAt(source, lower, end);
    OneSplit(s.origin, |Squeeze(source[..end], lower).text|, at + length - 1);
    SplitAt(source[..end], lower, start);
    assert source[..end][..start] == source[..start] && source[..end][start..] == source[start..end];
    Middle(s.text, Squeeze(source[..start], lower).text, Squeeze(source[start..end], lower).text,
           Squeeze(source[end..], lower).text);
  }

  lemma Middle(whole: Units, a: Units, b: Units, c: Units)
    requires whole == (a + b) + c
    ensures whole[|a|..|a| + |b|] == b
  {
  }

  // ----- over the pages -----

  predicate Blank(s: Units) {
    forall i :: 0 <= i < |s| ==> IsSpace(s[i])
  }

  predicate InPages(pages: seq<Units>, first: nat, spans: seq<Span>) {
    && first >= 1 && (spans == [] || first - 1 + |spans| <= |pages|)
    && forall i :: 0 <= i < |spans| ==> spans[i].start <= spans[i].end <= |pages[first - 1 + i]|
  }

  // What is marked on the pages from `first` on, squeezed, one after the other.
  function Marked(pages: seq<Units>, first: nat, spans: seq<Span>, lower: Lower): Units
    requires InPages(pages, first, spans)
    decreases |spans|
  {
    if spans == [] then []
    else
      var n := |spans| - 1;
      Marked(pages, first, spans[..n], lower)
      + Squeeze(pages[first - 1 + n][spans[n].start..spans[n].end], lower).text
  }

  // Not even 12 characters of what is left are on the page.
  predicate Missing(page: Units, rest: Units, lower: Lower) {
    var needle := Squeeze(rest, lower).text;
    needle == [] || !Occurs(Squeeze(page, lower).text, needle[..Least(12, |needle|)])
  }

  lemma PartFound(page: Units, rest: Units, lower: Lower, length: nat, best: nat)
    requires OneToOne(lower)
    requires var h, needle := Squeeze(page, lower), Squeeze(rest, lower);
             0 < length <= |needle.text| && OccursAt(h.text, needle.text[..length], best)
    ensures var h, needle := Squeeze(page, lower), Squeeze(rest, lower);
            var start, end := h.origin[best], h.origin[best + length - 1] + 1;
            && start <= end <= |page|
            && Squeeze(page[start..end], lower).text + Squeeze(RestOf(rest, lower, length), lower).text == needle.text
  {
    hide Squeeze, OneToOne, RestOf, OccursAt;
    var h, needle := Squeeze(page, lower).text, Squeeze(rest, lower).text;
    Occurrence(h, needle[..length], best);
    SpanHolds(page, lower, best, length);
    RestHolds(rest, lower, length);
    Seqs.Split(needle, length);
  }

  lemma Occurrence(haystack: Units, needle: Units, at: nat)
    requires OccursAt(haystack, needle, at)
    ensures at + |needle| <= |haystack| && haystack[at..at + |needle|] == needle
  {
  }

  lemma RestHolds(rest: Units, lower: Lower, length: nat)
    requires OneToOne(lower) && length <= |Squeeze(rest, lower).text|
    ensures Squeeze(RestOf(rest, lower, length), lower).text == Squeeze(rest, lower).text[length..]
  {
    hide Squeeze, OneToOne, RestOf;
    OriginsRise(rest, lower);
    RestExactly(rest, lower, length);
  }

  // Parts found so far, and what is left, make up the excerpt.
  ghost predicate Whole(pages: seq<Units>, first: nat, parts: seq<Span>, rest: Units, excerpt: Units, lower: Lower) {
    && InPages(pages, first, parts)
    && Marked(pages, first, parts, lower) + Squeeze(rest, lower).text == Squeeze(excerpt, lower).text
  }

  ghost predicate AreParts(spans: map<nat, Span>, first: nat, parts: seq<Span>) {
    && (forall n: nat :: n in spans <==> first <= n < first + |parts|)
    && forall i :: 0 <= i < |parts| ==> first + i in spans && spans[first + i] == parts[i]
  }

  lemma WholeStep(pages: seq<Units>, first: nat, parts: seq<Span>, rest: Units, excerpt: Units, lower: Lower,
                  span: Span, left: Units)
    requires Whole(pages, first, parts, rest, excerpt, lower) && first - 1 + |parts| < |pages|
    requires span.start <= span.end <= |pages[first - 1 + |parts|]|
    requires Squeeze(pages[first - 1 + |parts|][span.start..span.end], lower).text + Squeeze(left, lower).text
             == Squeeze(rest, lower).text
    ensures Whole(pages, first, parts + [span], left, excerpt, lower)
  {
    hide Squeeze, Marked;
    MarkedMore(pages, first, parts, lower, span);
    Seqs.Assoc(Marked(pages, first, parts, lower),
               Squeeze(pages[first - 1 + |parts|][span.start..span.end], lower).text, Squeeze(left, lower).text);
  }

  lemma WholeMore(pages: seq<Units>, first: nat, parts: seq<Span>, rest: Units, excerpt: Units, lower: Lower,
                  length: nat, best: nat, span: Span)
    requires first >= 1 && first - 1 + |parts| < |pages|
    requires OneToOne(lower) && Whole(pages, first, parts, rest, excerpt, lower)
    requires var h, needle := Squeeze(pages[first - 1 + |parts|], lower), Squeeze(rest, lower);
             && 0 < length <= |needle.text| && OccursAt(h.text, needle.text[..length], best)
             && best + length <= |h.origin|
             && span == Span(h.origin[best], h.origin[best + length - 1] + 1)
    ensures Whole(pages, first, parts + [span], RestOf(rest, lower, length), excerpt, lower)
  {
    hide Squeeze, OneToOne, RestOf, OccursAt, Whole;
    PartFound(pages[first - 1 + |parts|], rest, lower, length, best);
    WholeStep(pages, first, parts, rest, excerpt, lower, span, RestOf(rest, lower, length));
  }

  // A part is the first occurrence on its page of the longest start, of at least
  // 12 characters or all there is, of what was left; `left` is what is left then.
  ghost predicate LongestPart(page: Units, rest: Units, lower: Lower, span: Span, left: Units) {
    var h, needle := Squeeze(page, lower), Squeeze(rest, lower).text;
    exists length: nat, best: nat ::
      && 0 < length && Least(12, |needle|) <= length <= |needle| && best + length <= |h.text|
      && IndexOf(h.text, needle[..length], 0) == Some(best)
      && (forall l :: length < l <= |needle| ==> !Occurs(h.text, needle[..l]))
      && span == Span(h.origin[best], h.origin[best + length - 1] + 1) && left == RestOf(rest, lower, length)
  }

  ghost predicate PartAt(pages: seq<Units>, first: nat, lower: Lower, parts: seq<Span>, rests: seq<Units>, k: nat)
    requires first >= 1 && k < |parts| && |rests| == |parts| + 1
  {
    first - 1 + k < |pages| && LongestPart(pages[first - 1 + k], rests[k], lower, parts[k], rests[k + 1])
  }

  // `rests` is what was left before each part and after the last.
  ghost predicate AllLongest(pages: seq<Units>, first: nat, excerpt: Units, lower: Lower, parts: seq<Span>,
                             rests: seq<Units>)
  {
    && first >= 1 && |rests| == |parts| + 1 && rests[0] == excerpt
    && forall k: nat :: k < |parts| ==> PartAt(pages, first, lower, parts, rests, k)
  }

  // The parts, each the longest its page has, and what is left make up the
  // excerpt, and no more of it is to be found.
  ghost predicate Followed(pages: seq<Units>, first: nat, excerpt: Units, lower: Lower, spans: map<nat, Span>,
                           parts: seq<Span>, rests: seq<Units>)
  {
    && AllLongest(pages, first, excerpt, lower, parts, rests)
    && var number, rest := first + |parts|, rests[|parts|];
    && Whole(pages, first, parts, rest, excerpt, lower) && AreParts(spans, first, parts)
    && (number > |pages| || Blank(rest) || Missing(pages[number - 1], rest, lower))
  }

  // The parts of the excerpt marked on its pages, and what is marked on none,
  // make up the whole of it.
  method CitedSpans(pages: seq<Units>, first: nat, excerpt: Units, lower: Lower) returns (spans: map<nat, Span>)
    requires first >= 1 && OneToOne(lower)
    ensures exists parts: seq<Span>, rests: seq<Units> :: Followed(pages, first, excerpt, lower, spans, parts, rests)
  {
    hide Squeeze, Occurs, OccursAt, Blank, Whole, OneToOne, RestOf, LongestPart, AllLongest;
    spans := map[];
    ghost var parts: seq<Span> := [];
    var rest := excerpt;
    var number := first;
    ghost var rests := [excerpt];
    NonePartsWhole(pages, first, excerpt, lower);
    while number <= |pages| && !Blank(rest)
      invariant number == first + |parts| && first >= 1
      invariant Whole(pages, first, parts, rest, excerpt, lower) && AreParts(spans, first, parts)
      invariant |rests| == |parts| + 1 && rests[|parts|] == rest
      invariant AllLongest(pages, first, excerpt, lower, parts, rests)
    {
      var haystack := new Haystack(pages[number - 1], lower);
      var found := haystack.FindChunk(rest, 12, None);
      if found.None? {
        break;
      }
      var span := found.value.span;
      ghost var length, best := HowFound(haystack, rest, found.value);
      WholeMore(pages, first, parts, rest, excerpt, lower, length, best, span);
      MoreParts(spans, first, parts, span);
      MoreLongest(pages, first, excerpt, lower, parts, rests, span, found.value.rest);
      rests := rests + [found.value.rest];
      spans := spans[number := span];
      rest := found.value.rest;
      parts := parts + [span];
      number := number + 1;
    }
    assert Followed(pages, first, excerpt, lower, spans, parts, rests);
  }

  lemma HowFound(haystack: Haystack, chunk: Units, found: ChunkMatch) returns (length: nat, best: nat)
    requires haystack.Valid() && haystack.IsFound(chunk, 12, None, found)
    ensures var needle := Squeeze(chunk, haystack.lower).text;
            && 0 < length <= |needle| && OccursAt(haystack.squeezed.text, needle[..length], best)
            && haystack.IsMatch(chunk, length, best, found)
    ensures LongestPart(haystack.text, chunk, haystack.lower, found.span, found.rest)
  {
    hide Squeeze, OccursAt, RestOf, IndexOf, Occurs;
    var needle := Squeeze(chunk, haystack.lower).text;
    length, best :|
      && haystack.LongestStart(needle, 12, length) && length > 0
      && haystack.Nearest(needle[..length], None, best) && OccursAt(haystack.squeezed.text, needle[..length], best)
      && haystack.IsMatch(chunk, length, best, found);
  }

  lemma NonePartsWhole(pages: seq<Units>, first: nat, excerpt: Units, lower: Lower)
    requires first >= 1
    ensures Whole(pages, first, [], excerpt, excerpt, lower)
    ensures AllLongest(pages, first, excerpt, lower, [], [excerpt])
  {
    assert [] + Squeeze(excerpt, lower).text == Squeeze(excerpt, lower).text;
  }

  lemma MoreLongest(pages: seq<Units>, first: nat, excerpt: Units, lower: Lower, parts: seq<Span>,
                    rests: seq<Units>, span: Span, left: Units)
    requires AllLongest(pages, first, excerpt, lower, parts, rests) && first - 1 + |parts| < |pages|
    requires LongestPart(pages[first - 1 + |parts|], rests[|parts|], lower, span, left)
    ensures AllLongest(pages, first, excerpt, lower, parts + [span], rests + [left])
  {
    hide LongestPart;
    var more, after := parts + [span], rests + [left];
    forall k: nat | k < |more|
      ensures PartAt(pages, first, lower, more, after, k)
    {
      if k < |parts| {
        assert PartAt(pages, first, lower, parts, rests, k);
      }
    }
  }

  lemma MoreParts(spans: map<nat, Span>, first: nat, parts: seq<Span>, span: Span)
    requires AreParts(spans, first, parts)
    ensures AreParts(spans[first + |parts| := span], first, parts + [span])
  {
  }

  lemma MarkedMore(pages: seq<Units>, first: nat, spans: seq<Span>, lower: Lower, span: Span)
    requires InPages(pages, first, spans) && first - 1 + |spans| < |pages|
    requires span.start <= span.end <= |pages[first - 1 + |spans|]|
    ensures InPages(pages, first, spans + [span])
    ensures Marked(pages, first, spans + [span], lower)
            == Marked(pages, first, spans, lower)
               + Squeeze(pages[first - 1 + |spans|][span.start..span.end], lower).text
  {
    hide Squeeze;
    assert (spans + [span])[..|spans|] == spans;
  }
}
