// A chunk found in text that was extracted differently: spaces, bars and case
// ignored, and mapped back.
module Match {
  import opened Wrappers
  import Seqs

  // A text by its UTF-16 code units, which places in it count.
  type Units = seq<nat>

  const SOFT_HYPHEN: nat := 0xAD
  const ZERO_WIDTH_SPACE: nat := 0x200B
  const BAR: nat := 0x7C

  datatype Span = Span(start: nat, end: nat)

  datatype ChunkMatch = ChunkMatch(span: Span, found: real, rest: Units)

  // What is left of a text, and where each character of it comes from.
  datatype Squeezed = Squeezed(text: Units, origin: seq<nat>)

  predicate IsSpace(c: nat) {
    || 9 <= c <= 13 || c == 32 || c == 0xA0 || c == 0x1680 || 0x2000 <= c <= 0x200A
    || c == 0x2028 || c == 0x2029 || c == 0x202F || c == 0x205F || c == 0x3000 || c == 0xFEFF
  }

  predicate Ignored(c: nat) {
    IsSpace(c) || c == SOFT_HYPHEN || c == ZERO_WIDTH_SPACE || c == BAR
  }

  // A character's lower case: at least one character, and now and then two.
  type Lower = nat -> Units

  ghost predicate OneToOne(lower: Lower) {
    forall c :: |lower(c)| == 1
  }

  function Folded(c: nat, lower: Lower): Units {
    if Ignored(c) then [] else lower(c)
  }

  function Repeat(index: nat, n: nat): seq<nat> {
    seq(n, i => index)
  }

  function Squeeze(source: Units, lower: Lower): (s: Squeezed)
    ensures |s.text| == |s.origin|
  {
    if source == [] then Squeezed([], [])
    else
      var n := |source| - 1;
      var before, last := Squeeze(source[..n], lower), Folded(source[n], lower);
      Squeezed(before.text + last, before.origin + Repeat(n, |last|))
  }

  lemma SqueezeStep(source: Units, lower: Lower)
    requires source != []
    ensures var n := |source| - 1;
            var before, last := Squeeze(source[..n], lower), Folded(source[n], lower);
            Squeeze(source, lower) == Squeezed(before.text + last, before.origin + Repeat(n, |last|))
  {
  }

  // Every character comes from one of the source that folds to it, in order.
  predicate Traced(source: Units, lower: Lower, s: Squeezed)
    requires |s.text| == |s.origin|
  {
    && (forall i :: 0 <= i < |s.origin| ==> s.origin[i] < |source|)
    && (forall i, j :: 0 <= i < j < |s.origin| ==> s.origin[i] <= s.origin[j])
    && (forall i :: 0 <= i < |s.origin| && s.origin[i] < |source| ==> s.text[i] in Folded(source[s.origin[i]], lower))
  }

  lemma {:induction false} SqueezeTraces(source: Units, lower: Lower)
    ensures Traced(source, lower, Squeeze(source, lower))
    decreases |source|
  {
    if source != [] {
      var n := |source| - 1;
      SqueezeTraces(source[..n], lower);
      SqueezeStep(source, lower);
      hide Squeeze;
      TracedMore(source, lower, Squeeze(source[..n], lower));
    }
  }

  lemma TracedMore(source: Units, lower: Lower, before: Squeezed)
    requires source != [] && |before.text| == |before.origin| && Traced(source[..|source| - 1], lower, before)
    ensures var n := |source| - 1;
            var last := Folded(source[n], lower);
            Traced(source, lower, Squeezed(before.text + last, before.origin + Repeat(n, |last|)))
  {
    hide Folded;
    var n := |source| - 1;
    var last := Folded(source[n], lower);
    var text, origin := before.text + last, before.origin + Repeat(n, |last|);
    forall i | 0 <= i < |origin|
      ensures origin[i] < |source| && text[i] in Folded(source[origin[i]], lower)
    {
      if i < |before.text| {
        assert source[..n][before.origin[i]] == source[origin[i]];
      } else {
        assert text[i] == last[i - |before.text|];
      }
    }
  }

  lemma OriginInside(source: Units, lower: Lower, i: nat)
    requires i < |Squeeze(source, lower).origin|
    ensures Squeeze(source, lower).origin[i] < |source|
  {
    SqueezeTraces(source, lower);
    hide Squeeze;
  }

  // What is left of a chunk once `length` characters of its needle are found.
  function RestOf(chunk: Units, lower: Lower, length: nat): Units
    requires length <= |Squeeze(chunk, lower).text|
  {
    var origin := Squeeze(chunk, lower).origin;
    if length < |origin| then
      OriginInside(chunk, lower, length);
      chunk[origin[length]..]
    else []
  }

  method SqueezeText(source: Units, lower: Lower) returns (squeezed: Squeezed)
    ensures squeezed == Squeeze(source, lower)
  {
    var text: Units, origin: seq<nat> := [], [];
    for index := 0 to |source|
      invariant Squeezed(text, origin) == Squeeze(source[..index], lower)
    {
      var c := source[index];
      assert source[..index + 1][..index] == source[..index];
      if !Ignored(c) {
        ghost var before := Squeezed(text, origin);
        var folded := lower(c);
        for k := 0 to |folded|
          invariant text == before.text + folded[..k] && origin == before.origin + Repeat(index, k)
        {
          text := text + [folded[k]];
          origin := origin + [index];
        }
        assert folded[..|folded|] == folded;
      } else {
        assert text + [] == text && origin + Repeat(index, 0) == origin;
      }
    }
    assert source[..|source|] == source;
    squeezed := Squeezed(text, origin);
  }

  // ----- occurrences -----

  predicate OccursAt(haystack: Units, needle: Units, at: nat) {
    at + |needle| <= |haystack| && haystack[at..at + |needle|] == needle
  }

  predicate Occurs(haystack: Units, needle: Units) {
    exists at :: 0 <= at <= |haystack| && OccursAt(haystack, needle, at)
  }

  // The first occurrence at or after a place.
  function IndexOf(haystack: Units, needle: Units, from: nat): (at: Option<nat>)
    requires from <= |haystack|
    ensures at.Some? ==> from <= at.value && OccursAt(haystack, needle, at.value)
    ensures at.Some? ==> forall k :: from <= k < at.value ==> !OccursAt(haystack, needle, k)
    ensures at.None? ==> forall k :: from <= k ==> !OccursAt(haystack, needle, k)
    decreases |haystack| - from
  {
    if OccursAt(haystack, needle, from) then Some(from)
    else if from == |haystack| then None
    else IndexOf(haystack, needle, from + 1)
  }

  lemma IndexOfOccurs(haystack: Units, needle: Units)
    ensures IndexOf(haystack, needle, 0).Some? <==> Occurs(haystack, needle)
  {
  }

  lemma ShorterOccurs(haystack: Units, needle: Units, i: nat, j: nat)
    requires i <= j <= |needle| && Occurs(haystack, needle[..j])
    ensures Occurs(haystack, needle[..i])
  {
    var at :| 0 <= at <= |haystack| && OccursAt(haystack, needle[..j], at);
    assert needle[..i] == needle[..j][..i] == haystack[at..at + i];
    assert OccursAt(haystack, needle[..i], at);
  }

  lemma InText(haystack: Units, needle: Units, at: nat)
    requires OccursAt(haystack, needle, at)
    ensures at + |needle| <= |haystack|
  {
  }

  predicate Overlapped(at: seq<nat>, length: nat, k: nat) {
    exists i :: 0 <= i < |at| && at[i] <= k < at[i] + length
  }

  // Occurrences apart and in order, and one over each that starts before `from`.
  ghost predicate AllFound(haystack: Units, needle: Units, at: seq<nat>, from: nat) {
    && (forall i :: 0 <= i < |at| ==> OccursAt(haystack, needle, at[i]) && at[i] + |needle| <= from)
    && (forall i, j :: 0 <= i < j < |at| ==> at[i] + |needle| <= at[j])
    && (needle != [] ==>
          forall k: nat :: k < from && OccursAt(haystack, needle, k) ==> Overlapped(at, |needle|, k))
  }

  lemma OverlappedMore(at: seq<nat>, next: nat, length: nat, k: nat)
    ensures Overlapped(at + [next], length, k) <==> Overlapped(at, length, k) || next <= k < next + length
  {
    if Overlapped(at, length, k) {
      var i :| 0 <= i < |at| && at[i] <= k < at[i] + length;
      assert (at + [next])[i] == at[i];
    }
    assert (at + [next])[|at|] == next;
  }

  lemma OneMoreFound(haystack: Units, needle: Units, at: seq<nat>, from: nat, next: nat)
    requires needle != [] && AllFound(haystack, needle, at, from) && from <= |haystack|
    requires IndexOf(haystack, needle, from) == Some(next)
    ensures AllFound(haystack, needle, at + [next], next + |needle|)
  {
    hide OccursAt, Overlapped, IndexOf;
    forall k: nat | k < next + |needle| && OccursAt(haystack, needle, k)
      ensures Overlapped(at + [next], |needle|, k)
    {
      OverlappedMore(at, next, |needle|, k);
    }
  }

  lemma NoneFound(haystack: Units, needle: Units)
    ensures AllFound(haystack, needle, [], 0)
  {
  }

  lemma NoNeedle(haystack: Units)
    ensures AllFound(haystack, [], [], |haystack| + 1)
  {
  }

  lemma NoMoreFound(haystack: Units, needle: Units, at: seq<nat>, from: nat)
    requires needle != [] && AllFound(haystack, needle, at, from) && from <= |haystack|
    requires IndexOf(haystack, needle, from) == None
    ensures AllFound(haystack, needle, at, |haystack| + 1)
  {
    hide OccursAt, Overlapped, IndexOf;
  }

  // Of the occurrences before `seen`, the first of those nearest to `near`.
  ghost predicate NearestBefore(haystack: Units, prefix: Units, origin: seq<nat>, near: nat, best: nat, seen: nat)
    requires |origin| == |haystack|
  {
    && best < |origin| && OccursAt(haystack, prefix, best)
    && forall k: nat :: k < seen && k < |origin| && OccursAt(haystack, prefix, k) ==>
         && Distance(origin[best], near) <= Distance(origin[k], near)
         && (Distance(origin[best], near) == Distance(origin[k], near) ==> best <= k)
  }

  function Distance(a: int, b: int): nat {
    if a <= b then b - a else a - b
  }

  method NearestOf(haystack: Units, prefix: Units, origin: seq<nat>, near: nat, first: nat) returns (best: nat)
    requires |origin| == |haystack| && prefix != [] && IndexOf(haystack, prefix, 0) == Some(first)
    ensures NearestBefore(haystack, prefix, origin, near, best, |haystack| + 1)
  {
    hide OccursAt;
    best := first;
    var at := Some(first);
    ghost var seen := 0;
    InText(haystack, prefix, first);
    while at.Some?
      invariant seen <= |haystack| && at == IndexOf(haystack, prefix, seen) && (at.Some? ==> best <= at.value)
      invariant NearestBefore(haystack, prefix, origin, near, best, seen)
      decreases |haystack| - seen
    {
      hide NearestBefore, Distance;
      InText(haystack, prefix, at.value);
      ghost var was := best;
      NearestBounds(haystack, prefix, origin, near, best, seen);
      if Distance(origin[at.value], near) < Distance(origin[best], near) {
        best := at.value;
      }
      NearestNext(haystack, prefix, origin, near, was, seen, at.value, best);
      seen := at.value + 1;
      at := IndexOf(haystack, prefix, at.value + 1);
    }
    NearestLast(haystack, prefix, origin, near, best, seen);
  }

  lemma NearestBounds(haystack: Units, prefix: Units, origin: seq<nat>, near: nat, best: nat, seen: nat)
    requires |origin| == |haystack| && NearestBefore(haystack, prefix, origin, near, best, seen)
    ensures best < |origin|
  {
  }

  lemma NearestNext(haystack: Units, prefix: Units, origin: seq<nat>, near: nat, was: nat, seen: nat, at: nat, best: nat)
    requires |origin| == |haystack| && NearestBefore(haystack, prefix, origin, near, was, seen)
    requires seen <= |haystack| && IndexOf(haystack, prefix, seen) == Some(at) && at < |origin| && was <= at
    requires best == if Distance(origin[at], near) < Distance(origin[was], near) then at else was
    ensures NearestBefore(haystack, prefix, origin, near, best, at + 1)
  {
    hide OccursAt;
  }

  lemma NearestLast(haystack: Units, prefix: Units, origin: seq<nat>, near: nat, best: nat, seen: nat)
    requires |origin| == |haystack| && NearestBefore(haystack, prefix, origin, near, best, seen)
    requires seen <= |haystack| && IndexOf(haystack, prefix, seen) == None
    ensures NearestBefore(haystack, prefix, origin, near, best, |haystack| + 1)
  {
    hide OccursAt;
  }

  // ----- finding -----

  class Haystack {
    const text: Units
    const lower: Lower
    const squeezed: Squeezed

    ghost predicate Valid() {
      squeezed == Squeeze(text, lower)
    }

    constructor (text: Units, lower: Lower)
      ensures Valid() && this.text == text && this.lower == lower
    {
      var s := SqueezeText(text, lower);
      this.text, this.lower, squeezed := text, lower, s;
    }

    function SpanAt(at: nat, length: nat): Span
      requires length > 0 && at + length <= |squeezed.origin|
    {
      Span(squeezed.origin[at], squeezed.origin[at + length - 1] + 1)
    }

    ghost predicate IsSpan(query: Units, at: nat, span: Span)
      requires Valid()
    {
      OccursAt(squeezed.text, query, at) && query != [] && span == SpanAt(at, |query|)
    }

    ghost predicate AreSpans(needle: Units, at: seq<nat>, found: seq<Span>)
      requires Valid()
    {
      |found| == |at| && forall i :: 0 <= i < |at| ==> IsSpan(needle, at[i], found[i])
    }

    lemma MoreSpans(needle: Units, at: seq<nat>, next: nat, found: seq<Span>)
      requires Valid() && needle != [] && OccursAt(squeezed.text, needle, next) && found != []
      requires AreSpans(needle, at, found[..|found| - 1])
      requires next + |needle| <= |squeezed.origin| && found[|found| - 1] == SpanAt(next, |needle|)
      ensures AreSpans(needle, at + [next], found)
    {
      hide OccursAt, Squeeze;
      assert forall i :: 0 <= i < |at| ==> found[..|found| - 1][i] == found[i];
    }

    // Every occurrence overlaps one that is found; those found are apart and in order.
    method FindAll(query: Units) returns (found: seq<Span>)
      requires Valid()
      ensures var needle := Squeeze(query, lower).text;
              exists at: seq<nat> :: AllFound(squeezed.text, needle, at, |squeezed.text| + 1) && AreSpans(needle, at, found)
    {
      hide OccursAt, AllFound, Squeeze, IndexOf;
      ghost var at: seq<nat> := [];
      found := [];
      var asked := SqueezeText(query, lower);
      var needle := asked.text;
      if needle == [] {
        NoNeedle(squeezed.text);
        assert AreSpans(needle, at, found);
        return;
      }
      ghost var from := 0;
      NoneFound(squeezed.text, needle);
      var next := IndexOf(squeezed.text, needle, 0);
      while next.Some?
        invariant from <= |squeezed.text| && next == IndexOf(squeezed.text, needle, from)
        invariant AllFound(squeezed.text, needle, at, from)
        invariant AreSpans(needle, at, found)
        decreases |squeezed.text| - from
      {
        InText(squeezed.text, needle, next.value);
        ghost var was, before := at, found;
        OneMoreFound(squeezed.text, needle, at, from, next.value);
        found := found + [SpanAt(next.value, |needle|)];
        at := at + [next.value];
        assert found[..|found| - 1] == before;
        MoreSpans(needle, was, next.value, found);
        from := next.value + |needle|;
        next := IndexOf(squeezed.text, needle, next.value + |needle|);
      }
      NoMoreFound(squeezed.text, needle, at, from);
    }

    // As long a start of the needle as is there, if `low` of it is.
    ghost predicate LongestStart(needle: Units, minimum: nat, length: nat) {
      && Least(minimum, |needle|) <= length <= |needle|
      && Occurs(squeezed.text, needle[..length])
      && forall l :: length < l <= |needle| ==> !Occurs(squeezed.text, needle[..l])
    }

    method Longest(needle: Units, minimum: nat) returns (length: Option<nat>)
      requires needle != []
      ensures length.None? <==> !Occurs(squeezed.text, needle[..Least(minimum, |needle|)])
      ensures length.Some? ==> LongestStart(needle, minimum, length.value)
    {
      var low, high := Least(minimum, |needle|), |needle|;
      IndexOfOccurs(squeezed.text, needle[..low]);
      if IndexOf(squeezed.text, needle[..low], 0).None? {
        return None;
      }
      while low < high
        invariant Least(minimum, |needle|) <= low <= high <= |needle|
        invariant Occurs(squeezed.text, needle[..low])
        invariant forall l :: high < l <= |needle| ==> !Occurs(squeezed.text, needle[..l])
      {
        hide Occurs;
        var middle := (low + high + 1) / 2;
        IndexOfOccurs(squeezed.text, needle[..middle]);
        if IndexOf(squeezed.text, needle[..middle], 0).Some? {
          low := middle;
        } else {
          forall l | middle <= l <= |needle|
            ensures !Occurs(squeezed.text, needle[..l])
          {
            if Occurs(squeezed.text, needle[..l]) {
              ShorterOccurs(squeezed.text, needle, middle, l);
            }
          }
          high := middle - 1;
        }
      }
      length := Some(low);
    }

    // The first occurrence, or the one nearest to `near`, the earlier of two as near.
    ghost predicate Nearest(prefix: Units, near: Option<nat>, best: nat)
      requires Valid()
    {
      match near
      case None => IndexOf(squeezed.text, prefix, 0) == Some(best)
      case Some(n) => NearestBefore(squeezed.text, prefix, squeezed.origin, n, best, |squeezed.text| + 1)
    }

    method Closest(prefix: Units, near: Option<nat>) returns (best: nat)
      requires Valid() && prefix != [] && Occurs(squeezed.text, prefix)
      ensures Nearest(prefix, near, best) && OccursAt(squeezed.text, prefix, best)
    {
      IndexOfOccurs(squeezed.text, prefix);
      hide OccursAt, Squeeze;
      best := IndexOf(squeezed.text, prefix, 0).value;
      if near.Some? {
        best := NearestOf(squeezed.text, prefix, squeezed.origin, near.value, best);
      }
    }

    // What a found chunk says: `length` of its needle at `best`, and what is left.
    ghost predicate IsMatch(chunk: Units, length: nat, best: nat, found: ChunkMatch)
      requires Valid()
    {
      var needle := Squeeze(chunk, lower);
      && 0 < length <= |needle.text| && best + length <= |squeezed.origin|
      && found.span == SpanAt(best, length)
      && found.found == length as real / |needle.text| as real
      && found.rest == RestOf(chunk, lower, length)
    }

    // The longest start that is there, at the occurrence asked for.
    ghost predicate IsFound(chunk: Units, minimum: nat, near: Option<nat>, found: ChunkMatch)
      requires Valid()
    {
      var needle := Squeeze(chunk, lower).text;
      exists length: nat, best: nat ::
        && LongestStart(needle, minimum, length) && length > 0
        && Nearest(needle[..length], near, best) && OccursAt(squeezed.text, needle[..length], best)
        && IsMatch(chunk, length, best, found)
    }

    method FindChunk(chunk: Units, minimum: nat, near: Option<nat>) returns (found: Option<ChunkMatch>)
      requires Valid() && minimum > 0
      ensures var needle := Squeeze(chunk, lower).text;
              && (found.None? <==> needle == [] || !Occurs(squeezed.text, needle[..Least(minimum, |needle|)]))
              && (found.Some? ==> IsFound(chunk, minimum, near, found.value))
    {
      hide Nearest, Squeeze;
      var needle := SqueezeText(chunk, lower);
      if needle.text == [] {
        return None;
      }
      var low := Longest(needle.text, minimum);
      if low.None? {
        return None;
      }
      var at := Closest(needle.text[..low.value], near);
      if low.value < |needle.text| {
        OriginInside(chunk, lower, low.value);
      }
      var rest := if low.value < |needle.text| then needle.origin[low.value] else |chunk|;
      found := Some(ChunkMatch(SpanAt(at, low.value), low.value as real / |needle.text| as real, chunk[rest..]));
      assert IsMatch(chunk, low.value, at, found.value);
    }
  }

  function Least(a: nat, b: nat): nat {
    if a < b then a else b
  }
}
