// What the plain text promises: its runs are in order, verbatim and faithful to
// the document's tokens; offsets are monotone; and a selection inside a
// textblock reads as the words an edit of it would replace.
module PlainLaws {
  import opened Wrappers
  import opened Utf16
  import opened Tree
  import opened Inline
  import opened Edits
  import opened PlainText
  import Seqs

  // ----- every block extends what came before -----

  lemma BreakLength()
    ensures Utf16Len("\n") == 1
  {
    assert Encode("\n") == Units('\n') + Encode("\n"[1..]);
  }

  lemma {:induction false} InlineExtends(p: Plain, children: seq<Node>, pos: nat)
    ensures Extends(p, InlineRuns(p, children, pos), pos, pos + ContentSize(children))
    decreases |children|
  {
    if children != [] {
      var child, size := children[0], NodeSize(children[0]);
      var q := if child.Text? then EmitRun(p, child.text, pos, size)
               else if child.kind.HardBreak? then EmitRun(p, "\n", pos, size)
               else p;
      BreakLength();
      if child.Text? {
        RunExtends(p, child.text, pos, size);
      } else if child.kind.HardBreak? {
        RunExtends(p, "\n", pos, size);
      }
      InlineExtends(q, children[1..], pos + size);
      hide Extends, NodeSize, EmitRun;
      SelfExtends(p, pos, pos + size);
      ExtendsTransitive(p, q, InlineRuns(q, children[1..], pos + size),
                        pos, pos + size, pos + size, pos + ContentSize(children));
    } else {
      SelfExtends(p, pos, pos);
    }
  }

  lemma SelfExtends(p: Plain, lo: int, hi: int)
    ensures Extends(p, p, lo, hi)
  {
  }

  // Leaves have no content: what normal form says of them.
  lemma TextblockSize(node: Node)
    requires NormalNode(node) && IsTextblock(node)
    ensures !IsLeafKind(node.kind) && NodeSize(node) == ContentSize(node.content) + 2
  {
  }

  lemma TextblockExtends(p: Plain, node: Node, pos: nat, prefix: string, marker: string)
    requires NormalNode(node) && IsTextblock(node)
    ensures var m := Emit(Separate(p), Opening(node, prefix, marker));
            var r := InlineRuns(m, node.content, pos + 1);
            && Extends(p, m, pos, pos)
            && Extends(m, r, pos + 1, pos + NodeSize(node) - 1)
            && Extends(r, Emit(r, Closing(node)), pos + NodeSize(node), pos + NodeSize(node))
            && Block(p, node, pos, prefix, marker) == Emit(r, Closing(node))
  {
    TextblockSize(node);
    var s := Separate(p);
    var m := Emit(s, Opening(node, prefix, marker));
    InlineExtends(m, node.content, pos + 1);
    EmitExtends(p, "", pos, pos);
    EmitExtends(s, Opening(node, prefix, marker), pos, pos);
    EmitExtends(InlineRuns(m, node.content, pos + 1), Closing(node), pos + NodeSize(node), pos + NodeSize(node));
    hide Extends, NodeSize, Emit, Separate, Opening, Closing, InlineRuns;
    ExtendsTransitive(p, s, m, pos, pos, pos, pos);
  }

  lemma {:induction false} BlockExtends(p: Plain, node: Node, pos: nat, prefix: string, marker: string)
    requires NormalNode(node)
    ensures Extends(p, Block(p, node, pos, prefix, marker), pos, pos + NodeSize(node))
    decreases node, 1
  {
    var q := Block(p, node, pos, prefix, marker);
    if IsTextblock(node) {
      TextblockExtends(p, node, pos, prefix, marker);
      TextblockSize(node);
      var m := Emit(Separate(p), Opening(node, prefix, marker));
      var r := InlineRuns(m, node.content, pos + 1);
      var end := pos + NodeSize(node);
      hide Extends, NodeSize, Emit, Separate, Opening, Closing, InlineRuns, Block;
      ExtendsTransitive(p, m, r, pos, pos, pos + 1, end - 1);
      ExtendsTransitive(p, r, q, pos, end - 1, end, end);
    } else if node.Elem? && (node.kind.HorizontalRule? || node.kind.PageBreak?) {
      EmitExtends(p, "", pos, pos);
      EmitExtends(Separate(p), prefix + "---", pos, pos + 1);
      hide Extends, Emit, Separate;
      ExtendsTransitive(p, Separate(p), q, pos, pos, pos, pos + 1);
    } else if node.Text? || IsLeafNode(node) {
      SelfExtends(p, pos, pos + NodeSize(node));
    } else {
      ItemsExtends(p, node.kind, ListStart(node), node.content, 0, pos + 1, prefix, marker);
      hide Extends, Items;
      Widen(p, q, pos + 1, pos + NodeSize(node) - 1, pos, pos + NodeSize(node));
    }
  }

  lemma Widen(p: Plain, q: Plain, lo: int, hi: int, lo': int, hi': int)
    requires Extends(p, q, lo, hi) && lo' <= lo && hi <= hi'
    ensures Extends(p, q, lo', hi')
  {
  }

  lemma {:induction false} ItemsExtends(p: Plain, kind: Kind, first: int, children: seq<Node>, index: nat, pos: nat,
                                        prefix: string, marker: string)
    requires Normal(children)
    ensures Extends(p, Items(p, kind, first, children, index, pos, prefix, marker), pos, pos + ContentSize(children))
    decreases children, 0
  {
    if children == [] {
      SelfExtends(p, pos, pos);
    } else {
      var size := NodeSize(children[0]);
      var cp, cm := ChildPrefix(kind, index, prefix), ChildMarker(kind, first, index, children[0], marker);
      BlockExtends(p, children[0], pos, cp, cm);
      var q := Block(p, children[0], pos, cp, cm);
      ItemsExtends(q, kind, first, children[1..], index + 1, pos + size, prefix, marker);
      hide Extends, Block, NodeSize, ChildPrefix, ChildMarker;
      ExtendsTransitive(p, q, Items(q, kind, first, children[1..], index + 1, pos + size, prefix, marker),
                        pos, pos + size, pos + size, pos + ContentSize(children));
    }
  }

  // The runs of a document are disjoint and in order, in the document and in
  // the text, and each stands verbatim at its offset.
  lemma RunsAreSound(doc: seq<Node>)
    requires Normal(doc)
    ensures Extends(EMPTY, ToPlain(doc), 0, ContentSize(doc))
  {
    ItemsExtends(EMPTY, Other("doc"), 1, doc, 0, 0, "", "");
  }

  // ----- offsets, run by run -----

  predicate InOrder(runs: seq<Run>) {
    forall i, j :: 0 <= i < j < |runs| ==> runs[i].pos <= runs[j].pos
  }

  // A position in a run, and before the next, is found in the run's text; so is
  // its end.
  lemma OffsetInRun(p: Plain, k: nat, pos: int, forward: bool)
    requires InOrder(p.runs) && k < |p.runs|
    requires p.runs[k].pos <= pos <= p.runs[k].pos + p.runs[k].size
    requires k + 1 < |p.runs| ==> pos < p.runs[k + 1].pos
    ensures Offset(p, pos, forward) == p.runs[k].offset + IndexAt(p.runs[k].text, pos - p.runs[k].pos)
  {
    assert StartsBy(p.runs, pos) == k + 1;
  }

  // A position between two runs, inside markup, is taken to the start of the
  // next one or back to the end of the one before; past the last run it is the
  // end of the text, and before the first its start.
  lemma OffsetBetweenRuns(p: Plain, k: nat, pos: int)
    requires InOrder(p.runs) && k <= |p.runs|
    requires k > 0 ==> p.runs[k - 1].pos + p.runs[k - 1].size < pos
    requires k < |p.runs| ==> pos < p.runs[k].pos
    ensures Offset(p, pos, true) == if k < |p.runs| then p.runs[k].offset else |p.text|
    ensures Offset(p, pos, false) == if k > 0 then p.runs[k - 1].offset + |p.runs[k - 1].text| else 0
  {
    assert StartsBy(p.runs, pos) == k;
  }

  // ----- offsets are monotone -----

  lemma StartsByMonotone(runs: seq<Run>, a: int, b: int)
    requires a <= b
    ensures StartsBy(runs, a) <= StartsBy(runs, b)
  {
  }

  // An offset lies within the run at or before the position, or at the
  // nearest edge of the gap it falls in.
  lemma OffsetBounds(p: Plain, pos: int, forward: bool, hi: int)
    requires Extends(EMPTY, p, 0, hi)
    ensures var n := StartsBy(p.runs, pos);
            && 0 <= Offset(p, pos, forward) <= |p.text|
            && (n > 0 ==> p.runs[n - 1].offset <= Offset(p, pos, forward))
            && (n > 0 && !forward ==> Offset(p, pos, forward) <= p.runs[n - 1].offset + |p.runs[n - 1].text|)
            && (n < |p.runs| ==> Offset(p, pos, forward) <= p.runs[n].offset)
  {
    var n := StartsBy(p.runs, pos);
    if n > 0 {
      assert Sound(p.runs[n - 1], p.text, 0, 0, hi);
    }
    if n < |p.runs| {
      assert Sound(p.runs[n], p.text, 0, 0, hi);
      if n > 0 {
        assert Precedes(p.runs[n - 1], p.runs[n]);
      }
    }
  }

  // The offset before a gap never exceeds the offset after it.
  lemma BackwardNeverExceedsForward(p: Plain, pos: int, hi: int)
    requires Extends(EMPTY, p, 0, hi)
    ensures Offset(p, pos, false) <= Offset(p, pos, true)
  {
    OffsetBounds(p, pos, false, hi);
    var n := StartsBy(p.runs, pos);
    if 0 < n < |p.runs| {
      assert Precedes(p.runs[n - 1], p.runs[n]);
    }
  }

  // Later positions never map to earlier offsets.
  lemma OffsetMonotone(p: Plain, a: int, b: int, forward: bool, hi: int)
    requires Extends(EMPTY, p, 0, hi) && a <= b
    ensures Offset(p, a, forward) <= Offset(p, b, forward)
  {
    hide IndexAt, Encode, Sound;
    var n, m := StartsBy(p.runs, a), StartsBy(p.runs, b);
    StartsByMonotone(p.runs, a, b);
    if n < m {
      OffsetsAcross(p, a, b, forward, hi);
    } else {
      OffsetBounds(p, a, forward, hi);
      OffsetBounds(p, b, forward, hi);
      if n > 0 {
        var run := p.runs[n - 1];
        IndexAtMonotone(run.text, a - run.pos, b - run.pos);
      }
    }
  }

  lemma OffsetsAcross(p: Plain, a: int, b: int, forward: bool, hi: int)
    requires Extends(EMPTY, p, 0, hi) && StartsBy(p.runs, a) < StartsBy(p.runs, b)
    ensures Offset(p, a, forward) <= Offset(p, b, forward)
  {
    hide Offset, Sound;
    var n, m := StartsBy(p.runs, a), StartsBy(p.runs, b);
    assert n < m - 1 ==> Precedes(p.runs[n], p.runs[m - 1]);
    OffsetBounds(p, a, forward, hi);
    OffsetBounds(p, b, forward, hi);
  }

  // ----- each run covers its own tokens -----

  ghost predicate Spells(tokens: seq<Token>, text: string) {
    || (exists marks :: tokens == UnitTokens(text, marks))
    || (text == "\n" && |tokens| == 1 && tokens[0].Leaf? && tokens[0].kind.HardBreak?)
  }

  // The run is spelled by `tokens`, which start at position `base`.
  ghost predicate Covers(run: Run, tokens: seq<Token>, base: int) {
    && 0 <= run.pos - base && run.pos - base + run.size <= |tokens|
    && Spells(tokens[run.pos - base..run.pos - base + run.size], run.text)
  }

  lemma CoversLater(run: Run, before: seq<Token>, tokens: seq<Token>, after: seq<Token>, base: int)
    requires Covers(run, tokens, base)
    ensures Covers(run, before + tokens + after, base - |before|)
  {
    hide Spells;
    var k := run.pos - base;
    assert (before + tokens + after)[|before| + k..|before| + k + run.size] == tokens[k..k + run.size];
  }

  lemma OwnTokens(run: Run, node: Node)
    requires node.Text? || node.kind.HardBreak?
    requires run.size == NodeSize(node) && run.text == if node.Text? then node.text else "\n"
    ensures Covers(run, NodeTokens(node), run.pos)
  {
    assert NodeTokens(node)[0..run.size] == NodeTokens(node);
  }

  lemma CoversFirst(run: Run, here: seq<Token>, later: seq<Token>, base: int)
    requires Covers(run, here, base)
    ensures Covers(run, here + later, base)
  {
    hide Covers;
    assert [] + here + later == here + later;
    CoversLater(run, [], here, later, base);
  }

  lemma CoversRest(run: Run, here: seq<Token>, later: seq<Token>, base: int)
    requires Covers(run, later, base + |here|)
    ensures Covers(run, here + later, base)
  {
    hide Covers;
    assert here + later + [] == here + later;
    CoversLater(run, here, later, [], base + |here|);
  }

  lemma RunKept(q: Plain, r: Plain, lo: int, hi: int, i: nat)
    requires Extends(q, r, lo, hi) && i < |q.runs|
    ensures |q.runs| <= |r.runs| && r.runs[i] == q.runs[i]
  {
  }

  function InlineRun(p: Plain, child: Node, pos: nat): Plain {
    if child.Text? then EmitRun(p, child.text, pos, NodeSize(child))
    else if child.kind.HardBreak? then EmitRun(p, "\n", pos, NodeSize(child))
    else p
  }

  lemma InlineRunCovers(p: Plain, child: Node, pos: nat)
    ensures |p.runs| <= |InlineRun(p, child, pos).runs| <= |p.runs| + 1
    ensures |InlineRun(p, child, pos).runs| > |p.runs| ==>
              Covers(InlineRun(p, child, pos).runs[|p.runs|], NodeTokens(child), pos)
  {
    hide Covers, NodeTokens, NodeSize;
    if child.Text? || child.kind.HardBreak? {
      OwnTokens(InlineRun(p, child, pos).runs[|p.runs|], child);
    }
  }

  lemma {:induction false} InlineCovers(p: Plain, children: seq<Node>, pos: nat, i: nat)
    requires |p.runs| <= i < |InlineRuns(p, children, pos).runs|
    ensures Covers(InlineRuns(p, children, pos).runs[i], Tokens(children), pos)
    decreases |children|
  {
    hide Covers, NodeTokens, Tokens, NodeSize, Extends, EmitRun;
    var child, size, rest := children[0], NodeSize(children[0]), children[1..];
    var q := InlineRun(p, child, pos);
    InlineRunCovers(p, child, pos);
    InlineExtends(q, rest, pos + size);
    var r := InlineRuns(q, rest, pos + size);
    assert r == InlineRuns(p, children, pos);
    hide InlineRuns, InlineRun;
    TokensCons(children);
    if i < |q.runs| {
      RunKept(q, r, pos + size, pos + size + ContentSize(rest), i);
      CoversFirst(r.runs[i], NodeTokens(child), Tokens(rest), pos);
    } else {
      InlineCovers(q, rest, pos + size, i);
      CoversRest(r.runs[i], NodeTokens(child), Tokens(rest), pos);
    }
  }

  lemma ElemCovers(run: Run, node: Node, pos: nat)
    requires node.Elem? && !IsLeafKind(node.kind) && Covers(run, Tokens(node.content), pos + 1)
    ensures Covers(run, NodeTokens(node), pos)
  {
    CoversLater(run, [Open(node.kind, node.attrs, node.marks)], Tokens(node.content), [Close], pos + 1);
  }

  lemma {:induction false} BlockCovers(p: Plain, node: Node, pos: nat, prefix: string, marker: string, i: nat)
    requires NormalNode(node)
    requires |p.runs| <= i < |Block(p, node, pos, prefix, marker).runs|
    ensures Covers(Block(p, node, pos, prefix, marker).runs[i], NodeTokens(node), pos)
    decreases node, 1
  {
    hide Covers, Tokens, NodeTokens, NodeSize;
    var q := Block(p, node, pos, prefix, marker);
    if IsTextblock(node) {
      TextblockSize(node);
      InlineCovers(Emit(Separate(p), Opening(node, prefix, marker)), node.content, pos + 1, i);
      ElemCovers(q.runs[i], node, pos);
    } else {
      ItemsCovers(p, node.kind, ListStart(node), node.content, 0, pos + 1, prefix, marker, i);
      ElemCovers(q.runs[i], node, pos);
    }
  }

  lemma {:induction false} ItemsCovers(p: Plain, kind: Kind, first: int, children: seq<Node>, index: nat, pos: nat,
                                       prefix: string, marker: string, i: nat)
    requires Normal(children)
    requires |p.runs| <= i < |Items(p, kind, first, children, index, pos, prefix, marker).runs|
    ensures Covers(Items(p, kind, first, children, index, pos, prefix, marker).runs[i], Tokens(children), pos)
    decreases children, 0
  {
    hide Covers, NodeTokens, Tokens, Block, NodeSize, ChildPrefix, ChildMarker, Extends;
    var child, size, rest := children[0], NodeSize(children[0]), children[1..];
    var cp, cm := ChildPrefix(kind, index, prefix), ChildMarker(kind, first, index, child, marker);
    var q := Block(p, child, pos, cp, cm);
    ItemsExtends(q, kind, first, rest, index + 1, pos + size, prefix, marker);
    var r := Items(q, kind, first, rest, index + 1, pos + size, prefix, marker);
    TokensCons(children);
    if i < |q.runs| {
      RunKept(q, r, pos + size, pos + size + ContentSize(rest), i);
      BlockCovers(p, child, pos, cp, cm, i);
      CoversFirst(r.runs[i], NodeTokens(child), Tokens(rest), pos);
    } else {
      ItemsCovers(q, kind, first, rest, index + 1, pos + size, prefix, marker, i);
      CoversRest(r.runs[i], NodeTokens(child), Tokens(rest), pos);
    }
  }

  // Every run of a document's text spells exactly the document's tokens there.
  lemma RunsSpellTokens(doc: seq<Node>, i: nat)
    requires Normal(doc) && i < |ToPlain(doc).runs|
    ensures Covers(ToPlain(doc).runs[i], Tokens(doc), 0)
  {
    ItemsCovers(EMPTY, Other("doc"), 1, doc, 0, 0, "", "", i);
  }

  // ----- a selection inside one textblock -----

  // `m` is what stood before the inline content of `block`, which starts at
  // `start`; what follows that content in `q` lies after the block.
  predicate Around(p: Plain, q: Plain, m: Plain, block: Node, start: nat, lo: int, hi: int) {
    && block.Elem?
    && lo <= start && start + NodeSize(block) <= hi
    && Extends(p, m, lo, start)
    && Extends(InlineRuns(m, block.content, start + 1), q, start + NodeSize(block), hi)
  }

  lemma AroundAfter(p: Plain, b: Plain, q: Plain, m: Plain, block: Node, start: nat, lo: int, mid: int, hi: int)
    requires Extends(p, b, lo, mid) && Around(b, q, m, block, start, mid, hi) && lo <= mid
    ensures Around(p, q, m, block, start, lo, hi)
  {
    hide Extends, InlineRuns, NodeSize;
    ExtendsTransitive(p, b, m, lo, mid, mid, start);
  }

  lemma AroundBefore(p: Plain, b: Plain, q: Plain, m: Plain, block: Node, start: nat,
                     lo: int, close: int, mid: int, hi: int)
    requires Around(p, b, m, block, start, lo, close) && Extends(b, q, mid, hi) && close <= mid <= hi
    ensures Around(p, q, m, block, start, lo, hi)
  {
    hide Extends, InlineRuns, NodeSize;
    ExtendsTransitive(InlineRuns(m, block.content, start + 1), b, q, start + NodeSize(block), close, mid, hi);
  }

  lemma AroundTextblock(p: Plain, node: Node, pos: nat, prefix: string, marker: string)
    requires NormalNode(node) && IsTextblock(node)
    ensures Around(p, Block(p, node, pos, prefix, marker), Emit(Separate(p), Opening(node, prefix, marker)),
                   node, pos, pos, pos + NodeSize(node))
  {
    hide Extends, NodeSize, Block, InlineRuns, Opening, Closing;
    TextblockExtends(p, node, pos, prefix, marker);
  }

  // What the block found is, one step at a time.
  lemma FoundStep(children: seq<Node>, pos: int, base: int)
    requires TextblockAt(children, pos, base).Some?
    ensures var found, child := TextblockAt(children, pos, base).value, children[0];
            && ValidPath(children, found.path)
            && if base < pos < base + NodeSize(child) then
                 if IsTextblock(child) then found.start == base && Get(children, found.path) == child
                 else
                   && child.Elem? && !IsLeafKind(child.kind)
                   && TextblockAt(child.content, pos, base + 1).Some?
                   && var inner := TextblockAt(child.content, pos, base + 1).value;
                   && ValidPath(child.content, inner.path)
                   && found.start == inner.start && Get(children, found.path) == Get(child.content, inner.path)
               else
                 && TextblockAt(children[1..], pos, base + NodeSize(child)).Some?
                 && var later := TextblockAt(children[1..], pos, base + NodeSize(child)).value;
                 && ValidPath(children[1..], later.path)
                 && found.start == later.start && Get(children, found.path) == Get(children[1..], later.path)
  {
    var found, child := TextblockAt(children, pos, base).value, children[0];
    FoundIsThere(children, pos, base);
    if base < pos < base + NodeSize(child) {
      if !IsTextblock(child) {
        FoundIsThere(child.content, pos, base + 1);
        assert found.path[1..] == TextblockAt(child.content, pos, base + 1).value.path;
      }
    } else {
      FoundIsThere(children[1..], pos, base + NodeSize(child));
      assert found.path[1..] == TextblockAt(children[1..], pos, base + NodeSize(child)).value.path[1..];
    }
  }

  lemma FoundSomewhere(children: seq<Node>, pos: int, base: int)
    ensures TextblockAt(children, pos, base).Some? ==> children != []
  {
  }

  lemma {:induction false} Locate(p: Plain, kind: Kind, first: int, children: seq<Node>, index: nat, base: nat,
                                  prefix: string, marker: string, pos: int) returns (m: Plain)
    requires Normal(children) && TextblockAt(children, pos, base).Some?
    ensures var found := TextblockAt(children, pos, base).value;
            && ValidPath(children, found.path) && found.start >= 0
            && Around(p, Items(p, kind, first, children, index, base, prefix, marker), m,
                      Get(children, found.path), found.start, base, base + ContentSize(children))
    decreases children
  {
    hide Around, Extends, Block, ChildPrefix, ChildMarker, NodeSize, TextblockAt, Get, ValidPath;
    FoundSomewhere(children, pos, base);
    var child, size, rest := children[0], NodeSize(children[0]), children[1..];
    var cp, cm := ChildPrefix(kind, index, prefix), ChildMarker(kind, first, index, child, marker);
    var b, end := Block(p, child, base, cp, cm), base + ContentSize(children);
    var q := Items(b, kind, first, rest, index + 1, base + size, prefix, marker);
    FoundStep(children, pos, base);
    var found := TextblockAt(children, pos, base).value;
    if base < pos < base + size {
      ItemsExtends(b, kind, first, rest, index + 1, base + size, prefix, marker);
      m := LocateInside(p, child, base, cp, cm, pos);
      hide Items;
      var block := if IsTextblock(child) then child else Get(child.content, TextblockAt(child.content, pos, base + 1).value.path);
      AroundBefore(p, b, q, m, block, found.start, base, base + size, base + size, end);
    } else {
      m := Locate(b, kind, first, rest, index + 1, base + size, prefix, marker, pos);
      BlockExtends(p, child, base, cp, cm);
      AroundAfter(p, b, q, m, Get(rest, TextblockAt(rest, pos, base + size).value.path), found.start,
                  base, base + size, end);
    }
  }

  lemma {:induction false} LocateInside(p: Plain, child: Node, base: nat, prefix: string, marker: string, pos: int)
      returns (m: Plain)
    requires NormalNode(child) && base < pos < base + NodeSize(child)
    requires IsTextblock(child)
             || (child.Elem? && !IsLeafKind(child.kind) && TextblockAt(child.content, pos, base + 1).Some?)
    ensures var b, end := Block(p, child, base, prefix, marker), base + NodeSize(child);
            if IsTextblock(child) then Around(p, b, m, child, base, base, end)
            else
              var inner := TextblockAt(child.content, pos, base + 1).value;
              && ValidPath(child.content, inner.path) && inner.start >= 0
              && Around(p, b, m, Get(child.content, inner.path), inner.start, base, end)
    decreases child
  {
    if IsTextblock(child) {
      m := Emit(Separate(p), Opening(child, prefix, marker));
      AroundTextblock(p, child, base, prefix, marker);
    } else {
      m := Locate(p, child.kind, ListStart(child), child.content, 0, base + 1, prefix, marker, pos);
      hide Extends, InlineRuns, TextblockAt;
      var inner := TextblockAt(child.content, pos, base + 1).value;
      var block := Get(child.content, inner.path);
      Widen(p, m, base + 1, inner.start, base, inner.start);
      Widen(InlineRuns(m, block.content, inner.start + 1), Block(p, child, base, prefix, marker),
            inner.start + NodeSize(block), base + NodeSize(child) - 1,
            inner.start + NodeSize(block), base + NodeSize(child));
    }
  }
}
