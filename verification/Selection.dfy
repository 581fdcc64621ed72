// The words the model is shown for a selection inside one textblock are the
// words the edit of that selection replaces.
module Selection {
  import opened Wrappers
  import opened Utf16
  import opened Tree
  import opened Inline
  import opened Edits
  import opened PlainText
  import opened PlainLaws
  import EditLaws
  import Seqs

  predicate TextAndBreaks(nodes: seq<Node>) {
    forall i :: 0 <= i < |nodes| ==> nodes[i].Text? || nodes[i].kind.HardBreak?
  }

  // The text of the children between two positions.
  function Read(children: seq<Node>, start: int, end: int): string {
    InlineText(Slice(children, start, Some(end)))
  }

  predicate IsConcat(whole: string, a: string, b: string) {
    whole == a + b
  }

  function Words(node: Node): string {
    if node.Text? then node.text else "\n"
  }

  // ----- cutting text in three -----

  lemma {:induction false} IndexAtEnd(text: string, units: int)
    requires units >= Utf16Len(text)
    ensures IndexAt(text, units) == |text|
    decreases |text|
  {
    if text != [] {
      IndexAtEnd(text[1..], units - |Units(text[0])|);
    }
  }

  lemma CutTextSplits(text: string, a: int, b: int, c: int)
    requires a <= b <= c
    ensures CutText(text, a, c) == CutText(text, a, b) + CutText(text, b, c)
  {
    hide IndexAt;
    IndexAtMonotone(text, a, b);
    IndexAtMonotone(text, b, c);
  }

  // What a slice takes of one node, as text.
  function PartWords(node: Node, start: int, end: int): string {
    InlineText(FirstOf(node, start, Some(end)))
  }

  lemma PartWordsAre(node: Node, start: int, end: int)
    requires node.Text? || node.kind.HardBreak?
    ensures var low, high := Max(start, 0), Min(end, NodeSize(node));
            PartWords(node, start, end)
            == if low >= high then []
               else if node.Text? then CutText(node.text, low, high) else "\n"
  {
    hide CutText, NodeSize;
    var low, high := Max(start, 0), Min(end, NodeSize(node));
    if low < high {
      var part := Part(node, low, high);
      assert FirstOf(node, start, Some(end)) == [part];
      assert InlineText([part]) == Words(part) + InlineText([part][1..]);
    }
  }

  lemma PartWordsSplit(node: Node, a: int, b: int, c: int)
    requires node.Text? || node.kind.HardBreak?
    requires a <= b <= c
    ensures IsConcat(PartWords(node, a, c), PartWords(node, a, b), PartWords(node, b, c))
  {
    PartWordsAre(node, a, c);
    PartWordsAre(node, a, b);
    PartWordsAre(node, b, c);
    assert node.Elem? ==> NodeSize(node) == 1;
    hide PartWords, NodeSize, CutText;
    var low, mid, high := Max(a, 0), Min(Max(b, 0), NodeSize(node)), Min(c, NodeSize(node));
    if node.Text? && low < mid < high {
      CutTextSplits(node.text, low, mid, high);
    }
  }

  lemma SliceWords(children: seq<Node>, start: int, end: int)
    requires children != []
    ensures var size := NodeSize(children[0]);
            IsConcat(Read(children, start, end), PartWords(children[0], start, end),
                     Read(children[1..], start - size, end - size))
  {
    hide NodeSize, FirstOf, InlineText;
    var size: int := NodeSize(children[0]);
    EditLaws.InlineTextConcat(FirstOf(children[0], start, Some(end)),
                              Slice(children[1..], start - size, Some(end - size)));
  }

  // Adjacent slices read as one.
  lemma {:induction false} SlicesJoin(children: seq<Node>, a: int, b: int, c: int)
    requires TextAndBreaks(children) && a <= b <= c
    ensures IsConcat(Read(children, a, c), Read(children, a, b), Read(children, b, c))
    decreases |children|
  {
    hide Read, PartWords, NodeSize, IsConcat;
    if children == [] {
      ReadNothing(a, b, c);
    } else {
      var node, rest := children[0], children[1..];
      var size: int := NodeSize(node);
      SlicesJoin(rest, a - size, b - size, c - size);
      SliceWords(children, a, c);
      SliceWords(children, a, b);
      SliceWords(children, b, c);
      PartWordsSplit(node, a, b, c);
      SliceOrder(children, a, b, c);
      Interleave(Read(children, a, c), Read(children, a, b), Read(children, b, c),
                 PartWords(node, a, c), PartWords(node, a, b), PartWords(node, b, c),
                 Read(rest, a - size, c - size), Read(rest, a - size, b - size), Read(rest, b - size, c - size));
    }
  }

  lemma ReadNothing(a: int, b: int, c: int)
    ensures IsConcat(Read([], a, c), Read([], a, b), Read([], b, c))
  {
  }

  lemma Interleave(ac: string, ab: string, bc: string, pq: string, p: string, q: string,
                   xy: string, x: string, y: string)
    requires IsConcat(ac, pq, xy) && IsConcat(ab, p, x) && IsConcat(bc, q, y)
    requires IsConcat(pq, p, q) && IsConcat(xy, x, y)
    requires x == [] || q == []
    ensures IsConcat(ac, ab, bc)
  {
    if x == [] {
      assert p + x == p && x + y == y;
      Seqs.Assoc(p, q, y);
    } else {
      assert p + q == p && q + y == y;
      Seqs.Assoc(p, x, y);
    }
  }

  // Of a node and what follows it, either the first slice stops in the node or
  // the second one takes nothing of it.
  lemma SliceOrder(children: seq<Node>, a: int, b: int, c: int)
    requires children != [] && a <= b <= c
    ensures var size: int := NodeSize(children[0]);
            || Read(children[1..], a - size, b - size) == []
            || PartWords(children[0], b, c) == []
  {
    hide Read, PartWords, NodeSize;
    var size: int := NodeSize(children[0]);
    if b <= size {
      ReadBefore(children[1..], a - size, b - size);
    } else {
      PartBeyond(children[0], b, c);
    }
  }

  lemma PartBeyond(node: Node, start: int, end: int)
    requires start >= NodeSize(node)
    ensures PartWords(node, start, end) == []
  {
    hide NodeSize;
  }

  lemma {:induction false} SliceBefore(children: seq<Node>, start: int, end: int)
    requires end <= 0
    ensures Slice(children, start, Some(end)) == []
    decreases |children|
  {
    if children != [] {
      SliceBefore(children[1..], start - NodeSize(children[0]), end - NodeSize(children[0]));
    }
  }

  lemma {:induction false} SliceFromBefore(children: seq<Node>, start: int, end: int)
    requires start <= 0
    ensures Slice(children, start, Some(end)) == Slice(children, 0, Some(end))
    decreases |children|
  {
    if children != [] {
      var size: int := NodeSize(children[0]);
      SliceFromBefore(children[1..], start - size, end - size);
      SliceFromBefore(children[1..], 0 - size, end - size);
      hide NodeSize;
    }
  }

  lemma {:induction false} WholeSlice(children: seq<Node>, end: int)
    requires TextAndBreaks(children) && end >= ContentSize(children)
    ensures Read(children, 0, end) == InlineText(children)
    decreases |children|
  {
    if children != [] {
      var size: int := NodeSize(children[0]);
      WholeSlice(children[1..], end - size);
      SliceFromBefore(children[1..], 0 - size, end - size);
      SliceWords(children, 0, end);
      WholePart(children[0], end);
      hide NodeSize, PartWords;
    }
  }

  lemma WholePart(node: Node, end: int)
    requires node.Text? || node.kind.HardBreak?
    requires end >= NodeSize(node)
    ensures PartWords(node, 0, end) == Words(node)
  {
    PartWordsAre(node, 0, end);
    if node.Text? {
      IndexAtEnd(node.text, NodeSize(node));
      if NodeSize(node) == 0 {
        assert node.text == [];
      }
    }
  }

  // ----- offsets inside a textblock -----

  lemma StartsByIs(runs: seq<Run>, pos: int, n: nat)
    requires n <= |runs|
    requires forall k :: 0 <= k < n ==> runs[k].pos <= pos
    requires n < |runs| ==> pos < runs[n].pos
    ensures StartsBy(runs, pos) == n
  {
  }

  lemma {:induction false} InlineRunsText(m: Plain, children: seq<Node>, pos: nat)
    requires TextAndBreaks(children)
    ensures InlineRuns(m, children, pos).text == m.text + InlineText(children)
    decreases |children|
  {
    if children != [] {
      var child, size := children[0], NodeSize(children[0]);
      var q := EmitRun(m, Words(child), pos, size);
      InlineRunsText(q, children[1..], pos + size);
      Seqs.Assoc(m.text, Words(child), InlineText(children[1..]));
    }
  }

  // The position `at` in the content maps to the end of what a slice up to it reads.
  lemma {:induction false} OffsetInside(m: Plain, q: Plain, children: seq<Node>, pos: nat, at: int, forward: bool)
    requires TextAndBreaks(children) && children != [] && Normal(children)
    requires pos <= at <= pos + ContentSize(children)
    requires InlineRuns(m, children, pos).runs <= q.runs
    requires m.runs <= q.runs
    requires forall k :: 0 <= k < |m.runs| ==> q.runs[k].pos <= at
    requires |InlineRuns(m, children, pos).runs| < |q.runs| ==>
               at < q.runs[|InlineRuns(m, children, pos).runs|].pos
    ensures Offset(q, at, forward) == |m.text| + |Read(children, 0, at - pos)|
    decreases |children|
  {
    hide NodeSize, PartWords, Extends, Read, Offset;
    var child, rest := children[0], children[1..];
    var size: int := NodeSize(child);
    var q' := EmitRun(m, Words(child), pos, size);
    FirstRun(m, children, pos);
    SliceWords(children, 0, at - pos);
    if rest != [] && at >= pos + size {
      assert q'.runs == q.runs[..|m.runs| + 1];
      OffsetInside(q', q, rest, pos + size, at, forward);
      ReadFromBefore(rest, -size, at - pos - size);
      WholePart(child, at - pos);
    } else {
      if rest != [] {
        FirstRun(q', rest, pos + size);
      }
      ReadBefore(rest, -size, at - pos - size);
      PartLength(child, at - pos);
      OffsetInRun(q, |m.runs|, at, forward);
    }
  }

  lemma ReadFromBefore(children: seq<Node>, start: int, end: int)
    requires start <= 0
    ensures Read(children, start, end) == Read(children, 0, end)
  {
    SliceFromBefore(children, start, end);
  }

  lemma ReadBefore(children: seq<Node>, start: int, end: int)
    requires end <= 0
    ensures Read(children, start, end) == []
  {
    SliceBefore(children, start, end);
  }

  lemma OffsetInRun(q: Plain, n: nat, at: int, forward: bool)
    requires n < |q.runs| && forall k :: 0 <= k <= n ==> q.runs[k].pos <= at
    requires n + 1 < |q.runs| ==> at < q.runs[n + 1].pos
    requires at <= q.runs[n].pos + q.runs[n].size
    ensures Offset(q, at, forward) == q.runs[n].offset + IndexAt(q.runs[n].text, at - q.runs[n].pos)
  {
    StartsByIs(q.runs, at, n + 1);
  }

  lemma FirstRun(m: Plain, children: seq<Node>, pos: nat)
    requires TextAndBreaks(children) && children != []
    ensures var q := EmitRun(m, Words(children[0]), pos, NodeSize(children[0]));
            && InlineRuns(m, children, pos) == InlineRuns(q, children[1..], pos + NodeSize(children[0]))
            && q.runs <= InlineRuns(m, children, pos).runs
            && InlineRuns(m, children, pos).runs[|m.runs|]
               == Run(pos, NodeSize(children[0]), |m.text|, Words(children[0]))
  {
    hide NodeSize;
    InlineExtends(EmitRun(m, Words(children[0]), pos, NodeSize(children[0])), children[1..], pos + NodeSize(children[0]));
  }

  lemma PartLength(node: Node, end: int)
    requires node.Text? || node.kind.HardBreak?
    requires 0 <= end <= NodeSize(node)
    ensures |PartWords(node, 0, end)| == IndexAt(Words(node), end)
  {
    PartWordsAre(node, 0, end);
    if node.Elem? {
      BreakLength();
      IndexAtEnd("\n", 1);
    }
  }

  lemma ReadBetween(text: string, before: string, x: string, y: string, z: string, after: string)
    requires before + (x + y + z) <= text
    ensures |before| + |x + y| <= |text|
    ensures text[|before| + |x|..|before| + |x + y|] == y
  {
    var whole := before + (x + y + z);
    assert text[..|whole|] == whole;
    assert whole == (before + x) + y + z;
    assert whole[|before| + |x|..|before| + |x + y|] == y;
    assert text[|before| + |x|..|before| + |x + y|] == whole[|before| + |x|..|before| + |x + y|];
  }

  // The text either side of a selection's offsets is what the slice reads.
  lemma SliceIsRead(m: Plain, q: Plain, children: seq<Node>, pos: nat, low: int, high: int)
    requires TextAndBreaks(children) && 0 <= low <= high <= ContentSize(children)
    requires InlineRuns(m, children, pos).text <= q.text
    ensures var from := |m.text| + |Read(children, 0, low)|;
            var to := |m.text| + |Read(children, 0, high)|;
            && from <= to <= |q.text|
            && q.text[from..to] == Read(children, low, high)
  {
    hide Read, ContentSize;
    var size := ContentSize(children);
    InlineRunsText(m, children, pos);
    WholeSlice(children, size);
    SlicesJoin(children, 0, low, high);
    SlicesJoin(children, 0, high, size);
    ReadBetween(q.text, m.text, Read(children, 0, low),
                Read(children, low, high), Read(children, high, size), "");
  }

  lemma AroundOffsets(q: Plain, m: Plain, block: Node, start: nat, hi: int, at: int, forward: bool)
    requires Around(EMPTY, q, m, block, start, 0, hi)
    requires NormalNode(block) && !IsLeafKind(block.kind) && TextAndBreaks(block.content) && block.content != []
    requires start < at < start + NodeSize(block)
    ensures Offset(q, at, forward) == |m.text| + |Read(block.content, 0, at - start - 1)|
    ensures InlineRuns(m, block.content, start + 1).text <= q.text
  {
    ContentNotEmpty(block);
    AroundRuns(q, m, block, start, hi);
    hide InlineRuns, Offset, Read, NodeSize, Extends, ContentSize, Around;
    OffsetInside(m, q, block.content, start + 1, at, forward);
  }

  lemma AroundRuns(q: Plain, m: Plain, block: Node, start: nat, hi: int)
    requires Around(EMPTY, q, m, block, start, 0, hi)
    ensures var r := InlineRuns(m, block.content, start + 1);
            && m.runs <= q.runs && r.runs <= q.runs && r.text <= q.text
            && (forall k :: 0 <= k < |m.runs| ==> q.runs[k].pos <= start)
            && (|r.runs| < |q.runs| ==> start + NodeSize(block) <= q.runs[|r.runs|].pos)
  {
    hide InlineRuns, NodeSize, ContentSize;
    var r := InlineRuns(m, block.content, start + 1);
    InlineExtends(m, block.content, start + 1);
    assert forall k :: 0 <= k < |m.runs| ==> Sound(m.runs[k], m.text, 0, 0, start);
    assert |r.runs| < |q.runs| ==> Sound(q.runs[|r.runs|], q.text, |r.text|, start + NodeSize(block), hi);
    PrefixChain(m.runs, r.runs, q.runs);
  }

  lemma PrefixChain(a: seq<Run>, b: seq<Run>, c: seq<Run>)
    requires a <= b <= c
    ensures a <= c
    ensures forall k :: 0 <= k < |a| ==> c[k] == a[k]
  {
  }

  // At any depth of nesting: for a range inside one textblock of text and hard
  // breaks, the selection cut from the plain text is the text of the children
  // the edit replaces.
  lemma SelectionReadsAsEdited(doc: seq<Node>, start: int, end: int)
    requires Normal(doc) && InOneTextblock(doc, start, end) && start < end
    requires var found := TextblockAt(doc, start, 0).value;
             && ValidPath(doc, found.path) && TextAndBreaks(Children(Get(doc, found.path)))
    ensures var found, plain := TextblockAt(doc, start, 0).value, ToPlain(doc);
            var from, to := Offset(plain, start, true), Offset(plain, end, false);
            var low, high := start - found.start - 1, end - found.start - 1;
            && 0 <= from <= to <= |plain.text|
            && plain.text[from..to] == Read(Children(Get(doc, found.path)), low, high)
  {
    hide TextblockAt, Get, ValidPath, Around, Offset, Read, NodeSize, ContentSize, Normal, OffsetOf, TextAndBreaks,
      ToPlain;
    FoundIsThere(doc, start, 0);
    FoundIsThere(doc, end, 0);
    var found := TextblockAt(doc, start, 0).value;
    var block := Get(doc, found.path);
    EditLaws.NormalGet(doc, found.path);
    ContentNotEmpty(block);
    var m := LocateInDoc(doc, start);
    ReadInBlock(ToPlain(doc), m, block, found.start, ContentSize(doc), start, end);
  }

  lemma LocateInDoc(doc: seq<Node>, pos: int) returns (m: Plain)
    requires Normal(doc) && TextblockAt(doc, pos, 0).Some?
    ensures var found := TextblockAt(doc, pos, 0).value;
            && ValidPath(doc, found.path) && found.start >= 0
            && Around(EMPTY, ToPlain(doc), m, Get(doc, found.path), found.start, 0, ContentSize(doc))
  {
    hide Around, TextblockAt, Items, Get, ValidPath, ContentSize;
    m := Locate(EMPTY, Other("doc"), 1, doc, 0, 0, "", "", pos);
  }

  lemma ReadInBlock(q: Plain, m: Plain, block: Node, at: nat, hi: int, start: int, end: int)
    requires block.Elem? && Around(EMPTY, q, m, block, at, 0, hi)
    requires NormalNode(block) && !IsLeafKind(block.kind) && TextAndBreaks(block.content) && block.content != []
    requires at < start < end < at + NodeSize(block)
    ensures var from, to := Offset(q, start, true), Offset(q, end, false);
            && 0 <= from <= to <= |q.text|
            && q.text[from..to] == Read(block.content, start - at - 1, end - at - 1)
  {
    hide Around, Offset, Read, NodeSize, ContentSize, InlineRuns, Normal, NormalNode, TextAndBreaks;
    ContentNotEmpty(block);
    AroundOffsets(q, m, block, at, hi, start, true);
    AroundOffsets(q, m, block, at, hi, end, false);
    SliceIsRead(m, q, block.content, at + 1, start - at - 1, end - at - 1);
  }

  lemma ContentNotEmpty(block: Node)
    requires block.Elem? && !IsLeafKind(block.kind)
    ensures NodeSize(block) == ContentSize(block.content) + 2
    ensures NodeSize(block) > 2 ==> block.content != []
  {
  }
}
