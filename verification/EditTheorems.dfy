// The main results about the server's edits: step and document agree, normal
// form is kept, a peer that replays the step holds the stored tree, and a
// snapped selection is stable.
module EditTheorems {
  import opened Wrappers
  import opened Utf16
  import opened Tree
  import opened Inline
  import opened Edits
  import opened EditLaws
  import Text
  import Seqs

  // ----- surrogate pairs in tokens -----

  predicate LowUnit(token: Token) {
    token.Unit? && IsLow(token.code)
  }

  lemma {:induction false} EncodePairs(text: string, at: int)
    requires Splits(Encode(text), at)
    ensures at < Utf16Len(text) && IsLow(Encode(text)[at])
    decreases |text|
  {
    var first := Units(text[0]);
    UnitsShape(text[0]);
    EncodeEndsWhole(text[1..]);
    hide Units;
    if at > |first| {
      assert Encode(text)[at - 1] == Encode(text[1..])[at - |first| - 1];
      EncodePairs(text[1..], at - |first|);
      assert Encode(text)[at] == Encode(text[1..])[at - |first|];
    } else {
      assert Encode(text)[at - 1] == first[at - 1];
    }
  }

  lemma {:induction false} InlinePairs(nodes: seq<Node>, at: int)
    requires InlineOnly(nodes) && SplitsPair(Tokens(nodes), at)
    ensures at < |Tokens(nodes)| && LowUnit(Tokens(nodes)[at])
    decreases |nodes|
  {
    hide Tokens, NodeTokens, NodeSize, ContentSize, Encode, LowUnit;
    NoTokens();
    var first := NodeTokens(nodes[0]);
    TokensCons(nodes);
    if at > |first| {
      assert Tokens(nodes)[at - 1] == Tokens(nodes[1..])[at - |first| - 1];
      InlinePairs(nodes[1..], at - |first|);
      assert Tokens(nodes)[at] == Tokens(nodes[1..])[at - |first|];
    } else {
      assert Tokens(nodes)[at - 1] == first[at - 1];
      NodePairs(nodes[0], at);
      assert Tokens(nodes)[at] == first[at];
    }
  }

  lemma NodePairs(node: Node, at: int)
    requires (node.Text? || IsLeafNode(node)) && SplitsPair(NodeTokens(node), at)
    ensures at < |NodeTokens(node)| && LowUnit(NodeTokens(node)[at])
  {
    hide Encode;
    if node.Text? {
      EncodePairs(node.text, at);
    }
  }

  lemma NoLowStart(nodes: seq<Node>)
    requires Normal(nodes) && nodes != []
    ensures Tokens(nodes) != [] && !LowUnit(Tokens(nodes)[0])
  {
    FirstToken(nodes, []);
    if nodes[0].Text? {
      UnitsShape(nodes[0].text[0]);
      assert Encode(nodes[0].text)[0] == Units(nodes[0].text[0])[0];
      assert Tokens(nodes)[0] == NodeTokens(nodes[0])[0];
    }
  }

  // ----- a rewrite in one textblock: exactly when the step says the same -----

  // A blank answer to a selection without space around it.
  predicate LeavesNothing(selected: string, text: string) {
    Text.Strip(text, Text.IsSpace) == [] && Text.Lead(selected) == [] && Text.Trail(selected) == []
  }

  // Neither end between the halves of a pair; or both, with the two halves left
  // behind alike and nothing to put in.
  predicate CutsCleanly(tokens: seq<Token>, start: int, end: int, selected: string, text: string) {
    || (!SplitsPair(tokens, start) && !SplitsPair(tokens, end))
    || (&& SplitsPair(tokens, start) && SplitsPair(tokens, end)
        && start < |tokens| && end < |tokens| && tokens[start] == tokens[end]
        && LeavesNothing(selected, text))
  }

  // The text of a selection inside one textblock, as it is cut.
  function Selected(children: seq<Node>, start: int, end: int): string
    requires InOneTextblock(children, start, end)
  {
    var found := TextblockAt(children, start, 0).value;
    FoundIsThere(children, start, 0);
    InlineText(Slice(Get(children, found.path).content, start - found.start - 1, Some(end - found.start - 1)))
  }

  lemma RewordedToNothing(selected: string, text: string, code: bool)
    ensures Reworded(selected, text, code) == [] <==> LeavesNothing(selected, text)
  {
    var words := Text.Strip(text, Text.IsSpace);
    Text.CollapseLeavesNoBlankLine(words);
    if words != [] {
      Text.StripHasInk(text);
      Text.InkStrip(text, Text.IsSpace);
    }
    hide Text.Collapse, Text.Strip, Text.Lead, Text.Trail, Text.IsSpace;
  }

  lemma NothingPutIn(text: string, code: bool)
    ensures InlineNodes(text, code) == [] <==> text == []
  {
    InlineNodesLaws(text, code);
    hide InlineNodes;
  }

  lemma SplicesCompared(t: seq<Token>, s: int, e: int, x: seq<Token>, splitS: bool, splitE: bool)
    requires 0 < s <= e < |t|
    requires splitS ==> LowUnit(t[s])
    requires x != [] ==> !LowUnit(x[0])
    ensures Spliced(t, if splitS then s + 1 else s, x, if splitE then e + 1 else e) == Spliced(t, s, x, e)
            <==> (!splitS && !splitE) || (splitS && splitE && x == [] && t[s] == t[e])
  {
    var s', e' := if splitS then s + 1 else s, if splitE then e + 1 else e;
    var a, b := Spliced(t, s', x, e'), Spliced(t, s, x, e);
    assert |a| == |b| + (s' - s) - (e' - e);
    if splitS && splitE {
      assert a[s] == t[s];
      if x != [] {
        assert b[s] == x[0];
      } else {
        assert b[s] == t[e];
        if t[s] == t[e] {
          assert t[..s + 1] == t[..s] + [t[s]];
          assert t[e..] == [t[e]] + t[e + 1..];
          assert a == b;
        }
      }
    }
  }

  lemma SplitInBlock(children: seq<Node>, start: int, end: int)
    requires Shaped(children) && InOneTextblock(children, start, end)
    ensures SplitsPair(Tokens(children), start) ==>
              start < |Tokens(children)| && LowUnit(Tokens(children)[start])
  {
    hide Tokens, NodeSize, ContentSize, Before, After, Get, Put, ValidPath, OffsetOf, TextblockAt, Shaped,
         SplitsPair, LowUnit, InlineOnly;
    var found := TextblockAt(children, start, 0).value;
    FoundIsThere(children, start, 0);
    var block := Get(children, found.path);
    ShapedGet(children, found.path);
    ContentAt(children, found.path, []);
    BlockSize(block);
    PairInside(Before(children, found.path) + [Open(block.kind, block.attrs, block.marks)], block.content,
               [Close] + After(children, found.path), start - found.start - 1);
  }

  lemma PairInside(opening: seq<Token>, nodes: seq<Node>, closing: seq<Token>, low: int)
    requires opening != [] && !opening[|opening| - 1].Unit? && closing != []
    requires InlineOnly(nodes) && 0 <= low <= |Tokens(nodes)|
    ensures var all, at := opening + Tokens(nodes) + closing, |opening| + low;
            SplitsPair(all, at) ==> at < |all| && LowUnit(all[at])
  {
    hide Tokens, SplitsPair, LowUnit, InlineOnly;
    InlineEndsWhole(nodes);
    CutInside(opening, Tokens(nodes), closing, low);
    if SplitsPair(Tokens(nodes), low) {
      InlinePairs(nodes, low);
      assert (opening + Tokens(nodes) + closing)[|opening| + low] == Tokens(nodes)[low];
    }
  }

  // The document a rewrite stores is what replaying its step gives, if and
  // only if the cuts are clean.
  lemma RewriteAgreesExactly(children: seq<Node>, start: int, end: int, text: string)
    requires Shaped(children) && InOneTextblock(children, start, end) && start <= end
    ensures var edit, tokens := ReplaceInTextblock(children, start, end, text).value, Tokens(children);
            && edit.step.from == start && edit.step.to == end && 0 < start && end < |tokens|
            && (Tokens(edit.content) == Replay(tokens, edit.step)
                <==> CutsCleanly(tokens, start, end, Selected(children, start, end), text))
  {
    RewriteTokens(children, start, end, text);
    SplitInBlock(children, start, end);
    var edit, tokens := ReplaceInTextblock(children, start, end, text).value, Tokens(children);
    RewriteSlice(children, start, end, text);
    SliceIsNothing(children, start, end, text);
    if edit.step.slice != [] {
      NoLowStart(edit.step.slice);
    }
    CutIs(tokens, start);
    CutIs(tokens, end);
    EmptySlice(edit.step.slice);
    hide Tokens, ReplaceInTextblock, InOneTextblock, Cut, Shaped, Normal, SplitsPair, LowUnit, Selected, LeavesNothing;
    SplicesCompared(tokens, start, end, Tokens(edit.step.slice),
                    SplitsPair(tokens, start), SplitsPair(tokens, end));
  }

  // One paragraph holding one character outside the basic plane.
  const ASTRAL: seq<Node> := [Elem(Paragraph, map[], [], [Node.Text("\U{1F600}", [])])]

  // What is stored is not what replaying the step gives.
  predicate Disagrees(edit: Option<Edit>, tokens: seq<Token>) {
    && edit.Some? && 0 <= edit.value.step.from <= edit.value.step.to <= |tokens|
    && Tokens(edit.value.content) != Replay(tokens, edit.value.step)
  }

  // A selection that ends between the halves of a character: whatever the
  // answer, the stored document loses both and the replayed one keeps the second.
  lemma HalfCharacterDisagrees(text: string)
    ensures Shaped(ASTRAL) && InOneTextblock(ASTRAL, 1, 2)
    ensures Disagrees(ReplaceSelection(ASTRAL, 1, 2, text), Tokens(ASTRAL))
  {
    hide Tokens, Shaped, Replay, InOneTextblock, TextblockAt, Selected, LeavesNothing, ASTRAL, SplitsPair,
         ReplaceInTextblock;
    AstralTokens();
    OneTextblockIsReplaced(ASTRAL, 1, 2, text);
    RewriteAgreesExactly(ASTRAL, 1, 2, text);
  }

  lemma OneTextblockIsReplaced(children: seq<Node>, start: int, end: int, text: string)
    requires InOneTextblock(children, start, end)
    ensures ReplaceSelection(children, start, end, text) == ReplaceInTextblock(children, start, end, text)
    ensures ReplaceInTextblock(children, start, end, text).Some?
  {
    hide TextblockAt, Inserted, Merged, Put, Get, ReplaceBlocks;
  }

  lemma AstralTokens()
    ensures Shaped(ASTRAL) && InOneTextblock(ASTRAL, 1, 2)
    ensures SplitsPair(Tokens(ASTRAL), 2) && !SplitsPair(Tokens(ASTRAL), 1)
  {
    var text := "\U{1F600}";
    assert text[1..] == [] && Encode(text) == Units(text[0]) + [];
    assert Encode(text) == Units(text[0]) && |Encode(text)| == 2;
    assert UnitTokens(text, []) == [Unit(Encode(text)[0], []), Unit(Encode(text)[1], [])];
    assert Tokens(ASTRAL) == [Open(Paragraph, map[], [])] + UnitTokens(text, []) + [Close];
  }

  lemma EmptySlice(nodes: seq<Node>)
    ensures nodes == [] ==> Tokens(nodes) == []
  {
  }

  lemma CutIs(tokens: seq<Token>, at: int)
    requires 0 <= at < |tokens|
    ensures Cut(tokens, at) == if SplitsPair(tokens, at) then at + 1 else at
  {
  }

  lemma RewriteSlice(children: seq<Node>, start: int, end: int, text: string)
    requires InOneTextblock(children, start, end)
    ensures Normal(ReplaceInTextblock(children, start, end, text).value.step.slice)
  {
    hide TextblockAt, Get, Put, ValidPath, Merged, Normal, NodeSize, OffsetOf, Inserted;
    FoundIsThere(children, start, 0);
    var found := TextblockAt(children, start, 0).value;
    InsertedNormal(Get(children, found.path), start - found.start - 1, end - found.start - 1, text);
  }

  lemma SliceIsNothing(children: seq<Node>, start: int, end: int, text: string)
    requires InOneTextblock(children, start, end)
    ensures ReplaceInTextblock(children, start, end, text).value.step.slice == []
            <==> LeavesNothing(Selected(children, start, end), text)
  {
    hide TextblockAt, Get, Put, ValidPath, Merged, NodeSize, OffsetOf, Reworded, LeavesNothing, InlineNodes;
    FoundIsThere(children, start, 0);
    var found := TextblockAt(children, start, 0).value;
    var code := Get(children, found.path).kind.CodeBlock?;
    RewordedToNothing(Selected(children, start, end), text, code);
    NothingPutIn(Reworded(Selected(children, start, end), text, code), code);
  }

  lemma InsertedNormal(block: Node, low: int, high: int, text: string)
    requires block.Elem?
    ensures Normal(Inserted(block, low, high, text))
  {
    hide InlineNodes, Normal, Reworded, InlineText, Slice;
    InlineNodesLaws(Reworded(InlineText(Slice(block.content, low, Some(high))), text, block.kind.CodeBlock?),
                    block.kind.CodeBlock?);
  }

  // ----- whole blocks -----

  lemma {:induction false} SpansAt(children: seq<Node>, pos: nat, i: nat)
    requires i < |children|
    ensures Spans(children, pos)[i]
            == (pos + ContentSize(children[..i]), pos + ContentSize(children[..i + 1]))
  {
    hide NodeSize;
    if i == 0 {
      assert children[..0] == [] && children[..1][1..] == [];
    } else {
      SpansAt(children[1..], pos + NodeSize(children[0]), i - 1);
      assert children[..i][1..] == children[1..][..i - 1];
      assert children[..i + 1][1..] == children[1..][..i];
    }
  }

  lemma SplitTokens(children: seq<Node>, i: nat)
    requires i <= |children|
    ensures ContentSize(children[..i]) <= |Tokens(children)|
    ensures Tokens(children)[..ContentSize(children[..i])] == Tokens(children[..i])
    ensures Tokens(children)[ContentSize(children[..i])..] == Tokens(children[i..])
  {
    hide Tokens, ContentSize;
    TokensConcat(children[..i], children[i..]);
    Seqs.Split(children, i);
    Seqs.PrefixOfConcat(Tokens(children[..i]), Tokens(children[i..]));
  }

  lemma BetweenTokens(children: seq<Node>, i: nat, j: nat, nodes: seq<Node>)
    requires i <= j <= |children|
    ensures var from, to, tokens := ContentSize(children[..i]), ContentSize(children[..j]), Tokens(children);
            && from <= to <= |tokens|
            && Tokens(Between(children, i, j, nodes)) == Spliced(tokens, from, Tokens(nodes), to)
  {
    SplitTokens(children, i);
    SplitTokens(children, j);
    SplitTokens(children[..j], i);
    assert children[..j][..i] == children[..i];
    hide Tokens, ContentSize;
    TokensConcat(children[..i] + nodes, children[j..]);
    TokensConcat(children[..i], nodes);
  }

  lemma SpansOrdered(children: seq<Node>, i: nat, k: nat)
    requires i < |children| && k < |children|
    ensures var spans := Spans(children, 0);
            && spans[i].0 <= spans[i].1
            && spans[i].1 - spans[i].0 == NodeSize(children[i])
            && (i < k ==> spans[i].1 <= spans[k].0)
  {
    hide ContentSize, NodeSize, Spans;
    SpansAt(children, 0, i);
    SpansAt(children, 0, k);
    PrefixStep(children, i);
    if i < k {
      PrefixGrows(children, i + 1, k);
    }
  }

  lemma {:induction false} PrefixStep(children: seq<Node>, i: nat)
    requires i < |children|
    ensures ContentSize(children[..i + 1]) == ContentSize(children[..i]) + NodeSize(children[i])
  {
    hide NodeSize;
    assert children[..i + 1][1..] == children[1..][..i];
    if i > 0 {
      assert children[..i][1..] == children[1..][..i - 1];
      PrefixStep(children[1..], i - 1);
    }
  }

  lemma {:induction false} PrefixGrows(children: seq<Node>, i: nat, k: nat)
    requires i <= k <= |children|
    ensures ContentSize(children[..i]) <= ContentSize(children[..k])
    decreases k - i
  {
    if i < k {
      PrefixStep(children, i);
      PrefixGrows(children, i + 1, k);
    }
  }

  // A block's own edges lead back to it, or to one just as placed.
  lemma BlockOfEdge(children: seq<Node>, k: nat)
    requires k < |children|
    ensures var spans := Spans(children, 0);
            var i, j := BlockAt(spans, spans[k].0, true), BlockAt(spans, spans[k].1, false);
            && i.Some? && i.value <= k && spans[i.value].0 == spans[k].0
            && j.Some? && j.value <= k && spans[j.value].1 == spans[k].1
            && (NodeSize(children[k]) > 0 ==> j.value == k)
            && ((forall m :: 0 <= m < |children| ==> NodeSize(children[m]) > 0) ==> i.value == k)
  {
    hide Spans, NodeSize;
    var spans := Spans(children, 0);
    SpansOrdered(children, k, k);
    var i, j := BlockAt(spans, spans[k].0, true), BlockAt(spans, spans[k].1, false);
    SpansOrdered(children, i.value, k);
    SpansOrdered(children, j.value, k);
  }

  lemma ReplaceBlocksAgrees(children: seq<Node>, start: int, end: int, text: string)
    requires !InOneTextblock(children, start, end)
    requires ReplaceBlocks(children, start, end, text).Some?
    ensures var edit, tokens := ReplaceBlocks(children, start, end, text).value, Tokens(children);
            && 0 <= edit.step.from <= edit.step.to <= |tokens|
            && Tokens(edit.content) == Replay(tokens, edit.step)
  {
    hide InOneTextblock, Tokens, ContentSize, Paragraphs, Spans;
    var snapped, spans := SnapSelection(children, start, end).value, Spans(children, 0);
    BlockOfEdge(children, BlockAt(spans, start, true).value);
    BlockOfEdge(children, BlockAt(spans, end, false).value);
    var i, j := BlockAt(spans, snapped.0, true).value, BlockAt(spans, snapped.1, false).value;
    SpansAt(children, 0, i);
    SpansAt(children, 0, j);
    BetweenTokens(children, i, j + 1, Paragraphs(text));
  }

  // New paragraphs go between two top-level blocks, right after the one that
  // holds `pos`.
  lemma InsertAgrees(children: seq<Node>, pos: Option<int>, text: string)
    ensures var edit, tokens := InsertAfter(children, pos, text), Tokens(children);
            && 0 <= edit.step.from == edit.step.to <= |tokens|
            && Tokens(edit.content) == Replay(tokens, edit.step)
  {
    hide Tokens, ContentSize, Paragraphs, Spans;
    var index := InsertIndex(Spans(children, 0), pos);
    BetweenTokens(children, index, index, Paragraphs(text));
    if index > 0 {
      SpansAt(children, 0, index - 1);
    } else {
      NoContent(children);
    }
  }

  lemma NoContent(children: seq<Node>)
    ensures ContentSize(children[..0]) == 0
  {
  }

  // ----- every edit agrees with its step, and keeps normal form -----

  lemma EditAgrees(children: seq<Node>, start: int, end: int, text: string)
    requires Shaped(children) && start <= end
    requires !SplitsPair(Tokens(children), start) && !SplitsPair(Tokens(children), end)
    requires ReplaceSelection(children, start, end, text).Some?
    ensures var edit, tokens := ReplaceSelection(children, start, end, text).value, Tokens(children);
            && 0 <= edit.step.from <= edit.step.to <= |tokens|
            && Tokens(edit.content) == Replay(tokens, edit.step)
  {
    hide InOneTextblock, Tokens, ContentSize, ReplaceBlocks, ReplaceInTextblock, Shaped;
    if InOneTextblock(children, start, end) {
      RewriteAgreesExactly(children, start, end, text);
    } else {
      ReplaceBlocksAgrees(children, start, end, text);
    }
  }

  lemma {:induction false} PutNormal(children: seq<Node>, path: seq<nat>, node: Node)
    requires Normal(children) && ValidPath(children, path)
    requires Get(children, path).Elem? && node.Elem? && NormalNode(node)
    ensures Normal(Put(children, path, node))
    decreases |path|
  {
    var i := path[0];
    NormalAt(children, i);
    if |path| == 1 {
      SwapNormal(children, i, node);
    } else {
      var child := children[i];
      PutNormal(child.content, path[1..], node);
      SwapNormal(children, i, child.(content := Put(child.content, path[1..], node)));
    }
  }

  lemma SwapNormal(children: seq<Node>, i: nat, node: Node)
    requires Normal(children) && i < |children| && node.Elem? && NormalNode(node)
    ensures Normal(children[i := node])
  {
    NormalSlice(children, 0, i);
    NormalSlice(children, i + 1, |children|);
    NormalSingle(node);
    hide Normal, NormalNode;
    NormalConcat(children[0..i], [node]);
    NormalConcat(children[0..i] + [node], children[i + 1..|children|]);
    assert children[i := node] == children[0..i] + [node] + children[i + 1..|children|];
  }

  lemma MergedNormal(block: Node, low: int, high: int, inserted: seq<Node>)
    requires block.Elem? && !IsLeafKind(block.kind) && NormalNode(block) && Normal(inserted)
    ensures Normal(Merged(block, low, high, inserted))
  {
    var a, b := Slice(block.content, 0, Some(low)), Slice(block.content, high, None);
    SliceNodes(block.content, 0, Some(low));
    SliceNodes(block.content, high, None);
    forall i | 0 <= i < |inserted|
      ensures NormalNode(inserted[i])
    {
      NormalAt(inserted, i);
    }
    assert Normal([]);
    hide Normal, NormalNode, Slice;
    NormalizedIsNormal([], a + inserted + b);
  }

  lemma RewriteNormal(children: seq<Node>, start: int, end: int, text: string)
    requires Normal(children) && InOneTextblock(children, start, end)
    ensures Normal(ReplaceInTextblock(children, start, end, text).value.content)
  {
    hide TextblockAt, ValidPath, Get, Put, Normal, Merged, Inserted, NodeSize, OffsetOf;
    FoundIsThere(children, start, 0);
    var found := TextblockAt(children, start, 0).value;
    var block := Get(children, found.path);
    var low, high := start - found.start - 1, end - found.start - 1;
    NormalGet(children, found.path);
    InsertedNormal(block, low, high, text);
    MergedNormal(block, low, high, Inserted(block, low, high, text));
    PutNormal(children, found.path,
              block.(content := Merged(block, low, high, Inserted(block, low, high, text))));
  }

  lemma BetweenNormal(children: seq<Node>, i: nat, j: nat, text: string)
    requires Normal(children) && i <= j <= |children|
    requires 0 < i && j < |children| ==> Paragraphs(text) != [] || !Mergeable(children[i - 1], children[j])
    ensures Normal(Between(children, i, j, Paragraphs(text)))
  {
    hide Normal, NormalNode, Paragraphs, InlineText, TextOf, Text.Ink;
    var nodes := Paragraphs(text);
    var front, back := children[..i], children[j..];
    NormalSlice(children, 0, i);
    NormalSlice(children, j, |children|);
    assert front == children[0..i] && back == children[j..|children|];
    ParagraphsLaws(text);
    if nodes == [] {
      assert front + nodes == front;
      NormalConcat(front, back);
    } else {
      assert NotBlank(nodes[0]) && NotBlank(nodes[|nodes| - 1]);
      NormalAround(front, nodes, back);
    }
  }

  lemma NormalAround(front: seq<Node>, nodes: seq<Node>, back: seq<Node>)
    requires Normal(front) && Normal(nodes) && Normal(back)
    requires nodes != [] && nodes[0].Elem? && nodes[|nodes| - 1].Elem?
    ensures Normal(front + nodes + back)
  {
    hide Normal, NormalNode;
    NormalConcat(front, nodes);
    assert (front + nodes)[|front + nodes| - 1] == nodes[|nodes| - 1];
    NormalConcat(front + nodes, back);
  }

  // Documents hold blocks, not text, at the top level.
  predicate BlocksOnTop(children: seq<Node>) {
    forall i :: 0 <= i < |children| ==> children[i].Elem?
  }

  lemma EditKeepsNormalForm(children: seq<Node>, start: int, end: int, text: string)
    requires Normal(children) && BlocksOnTop(children)
    ensures var edit := ReplaceSelection(children, start, end, text);
            edit.Some? ==> Normal(edit.value.content) && BlocksOnTop(edit.value.content)
  {
    hide InOneTextblock, Normal, ReplaceBlocks, ReplaceInTextblock;
    if InOneTextblock(children, start, end) {
      RewriteNormal(children, start, end, text);
      RewriteOnTop(children, start, end, text);
    } else {
      ReplaceBlocksNormal(children, start, end, text);
    }
  }

  lemma ReplaceBlocksNormal(children: seq<Node>, start: int, end: int, text: string)
    requires Normal(children) && BlocksOnTop(children)
    ensures var edit := ReplaceBlocks(children, start, end, text);
            edit.Some? ==> Normal(edit.value.content) && BlocksOnTop(edit.value.content)
  {
    hide Normal, Paragraphs, SnapSelection, Spans;
    if ReplaceBlocks(children, start, end, text).Some? {
      var spans, snapped := Spans(children, 0), SnapSelection(children, start, end).value;
      var i, j := BlockAt(spans, snapped.0, true).value, BlockAt(spans, snapped.1, false).value;
      BetweenNormal(children, i, j + 1, text);
      ParagraphsLaws(text);
    }
  }

  lemma RewriteOnTop(children: seq<Node>, start: int, end: int, text: string)
    requires BlocksOnTop(children) && InOneTextblock(children, start, end)
    ensures BlocksOnTop(ReplaceInTextblock(children, start, end, text).value.content)
  {
    hide TextblockAt, Get, Merged, Inserted, NodeSize, OffsetOf;
    FoundIsThere(children, start, 0);
  }

  lemma InsertKeepsNormalForm(children: seq<Node>, pos: Option<int>, text: string)
    requires Normal(children) && BlocksOnTop(children)
    ensures Normal(InsertAfter(children, pos, text).content)
    ensures BlocksOnTop(InsertAfter(children, pos, text).content)
  {
    hide Normal, Paragraphs;
    var index := InsertIndex(Spans(children, 0), pos);
    BetweenNormal(children, index, index, text);
    ParagraphsLaws(text);
  }

  // A peer in normal form whose tokens are those of the replayed step holds
  // the very tree the server stored.
  lemma PeersConverge(children: seq<Node>, start: int, end: int, text: string, peer: seq<Node>)
    requires Normal(children) && BlocksOnTop(children) && Shaped(children) && start <= end
    requires !SplitsPair(Tokens(children), start) && !SplitsPair(Tokens(children), end)
    requires ReplaceSelection(children, start, end, text).Some?
    requires var edit := ReplaceSelection(children, start, end, text).value;
             && 0 <= edit.step.from <= edit.step.to <= |Tokens(children)|
             && Normal(peer) && Tokens(peer) == Replay(Tokens(children), edit.step)
    ensures peer == ReplaceSelection(children, start, end, text).value.content
  {
    hide ReplaceSelection, Shaped, Normal, Tokens;
    EditAgrees(children, start, end, text);
    EditKeepsNormalForm(children, start, end, text);
    TokensDetermineDocument(peer, ReplaceSelection(children, start, end, text).value.content);
  }

  lemma PeersConvergeOnInsert(children: seq<Node>, pos: Option<int>, text: string, peer: seq<Node>)
    requires Normal(children) && BlocksOnTop(children) && Normal(peer)
    requires var edit := InsertAfter(children, pos, text);
             && 0 <= edit.step.from <= edit.step.to <= |Tokens(children)|
             && Tokens(peer) == Replay(Tokens(children), edit.step)
    ensures peer == InsertAfter(children, pos, text).content
  {
    hide InsertAfter, Normal, Tokens;
    InsertAgrees(children, pos, text);
    InsertKeepsNormalForm(children, pos, text);
    TokensDetermineDocument(peer, InsertAfter(children, pos, text).content);
  }

  // ----- the textblock a position is in -----

  // No textblock holds the node at the path.
  predicate Outermost(children: seq<Node>, path: seq<nat>)
    requires ValidPath(children, path)
    decreases |path|
  {
    |path| == 1 || (!IsTextblock(children[path[0]]) && Outermost(children[path[0]].content, path[1..]))
  }

  predicate InTextblock(children: seq<Node>, path: seq<nat>, pos: int, base: int) {
    && ValidPath(children, path) && IsTextblock(Get(children, path)) && Outermost(children, path)
    && base + OffsetOf(children, path) < pos < base + OffsetOf(children, path) + NodeSize(Get(children, path))
  }

  // A position is found in the outermost textblock around it, if there is one.
  lemma FoundExactly(children: seq<Node>, path: seq<nat>, pos: int)
    ensures InTextblock(children, path, pos, 0)
            <==> TextblockAt(children, pos, 0) == Some(Found(path, OffsetIn(children, path)))
    ensures TextblockAt(children, pos, 0).None? <==> forall q :: !InTextblock(children, q, pos, 0)
  {
    hide InTextblock, TextblockAt;
    forall q | InTextblock(children, q, pos, 0)
      ensures TextblockAt(children, pos, 0) == Some(Found(q, OffsetIn(children, q)))
    {
      FoundIfAny(children, q, pos, 0);
    }
    if TextblockAt(children, pos, 0).Some? {
      FoundIsOutermost(children, pos, 0);
    }
  }

  function OffsetIn(children: seq<Node>, path: seq<nat>): nat {
    if ValidPath(children, path) then OffsetOf(children, path) else 0
  }

  lemma {:induction false} FoundIsOutermost(children: seq<Node>, pos: int, base: int)
    requires TextblockAt(children, pos, base).Some?
    ensures InTextblock(children, TextblockAt(children, pos, base).value.path, pos, base)
    decreases children
  {
    FoundIsThere(children, pos, base);
    hide NodeSize, Get, OffsetOf, ContentSize, IsLeafKind, IsTextblock;
    var size := NodeSize(children[0]);
    if base < pos < base + size {
      if !IsTextblock(children[0]) {
        FoundIsOutermost(children[0].content, pos, base + 1);
        var inner := TextblockAt(children[0].content, pos, base + 1).value.path;
        assert ([0] + inner)[1..] == inner;
      }
    } else {
      FoundIsOutermost(children[1..], pos, base + size);
      var later := TextblockAt(children[1..], pos, base + size).value.path;
      assert ([later[0] + 1] + later[1..])[1..] == later[1..];
    }
  }

  lemma {:induction false} FoundIfAny(children: seq<Node>, path: seq<nat>, pos: int, base: int)
    requires InTextblock(children, path, pos, base)
    ensures TextblockAt(children, pos, base) == Some(Found(path, base + OffsetIn(children, path)))
    decreases children
  {
    hide IsTextblock, NodeSize, ContentSize, Get, OffsetOf, Outermost, ValidPath;
    PathStarts(children, path);
    var child, size := children[0], NodeSize(children[0]);
    if path[0] > 0 {
      var earlier := [path[0] - 1] + path[1..];
      EarlierPath(children, path);
      FoundIfAny(children[1..], earlier, pos, base + size);
      assert [earlier[0] + 1] + earlier[1..] == path;
    } else if |path| > 1 {
      InnerOutermost(children, path);
      assert [0] + path[1..] == path;
      FoundIfAny(child.content, path[1..], pos, base + 1);
    } else {
      FirstChild(children);
      assert path == [0];
    }
  }

  lemma PathStarts(children: seq<Node>, path: seq<nat>)
    requires ValidPath(children, path)
    ensures path != [] && path[0] < |children|
  {
  }

  lemma InnerOutermost(children: seq<Node>, path: seq<nat>)
    requires ValidPath(children, path) && Outermost(children, path) && path[0] == 0 && |path| > 1
    ensures var child, inner := children[0], path[1..];
            && child.Elem? && !IsTextblock(child) && !IsLeafKind(child.kind)
            && ValidPath(child.content, inner) && Outermost(child.content, inner)
            && Get(children, path) == Get(child.content, inner)
            && OffsetOf(children, path) == 1 + OffsetOf(child.content, inner)
            && OffsetOf(children, path) + NodeSize(Get(children, path)) < NodeSize(child)
  {
    hide IsTextblock, NodeSize;
    InnerPath(children, path[1..]);
    assert [0] + path[1..] == path;
    InsideParent(children[0].content, path[1..]);
    SizeOfParent(children[0]);
  }

  lemma EarlierPath(children: seq<Node>, path: seq<nat>)
    requires ValidPath(children, path) && path[0] > 0 && Outermost(children, path)
    ensures var earlier := [path[0] - 1] + path[1..];
            && ValidPath(children[1..], earlier) && Get(children[1..], earlier) == Get(children, path)
            && OffsetOf(children, path) == NodeSize(children[0]) + OffsetOf(children[1..], earlier)
            && Outermost(children[1..], earlier)
  {
    hide NodeSize, IsTextblock;
    var earlier := [path[0] - 1] + path[1..];
    assert earlier[1..] == path[1..];
    LaterPath(children, earlier);
    assert [earlier[0] + 1] + earlier[1..] == path;
  }

  // A node lies within the nodes around it.
  lemma {:induction false} InsideParent(children: seq<Node>, path: seq<nat>)
    requires ValidPath(children, path)
    ensures OffsetOf(children, path) + NodeSize(Get(children, path)) <= ContentSize(children)
    decreases |path|
  {
    hide NodeSize;
    var i := path[0];
    PrefixStep(children, i);
    PrefixGrows(children, i + 1, |children|);
    assert children[..|children|] == children;
    if |path| > 1 {
      InsideParent(children[i].content, path[1..]);
      SizeOfParent(children[i]);
    }
  }

  lemma SizeOfParent(node: Node)
    requires node.Elem? && !IsLeafKind(node.kind)
    ensures NodeSize(node) == ContentSize(node.content) + 2
  {
  }

  // ----- snapping -----

  predicate NonEmptyBlocks(children: seq<Node>) {
    forall i :: 0 <= i < |children| ==> NodeSize(children[i]) > 0
  }

  lemma {:induction false} SpanHolding(children: seq<Node>, pos: nat, forward: bool, base: nat) returns (i: nat)
    requires NonEmptyBlocks(children)
    requires if forward then base <= pos < base + ContentSize(children)
             else base < pos <= base + ContentSize(children)
    ensures i < |children| && Holds(Spans(children, base)[i], pos, forward)
  {
    var next := base + NodeSize(children[0]);
    hide NodeSize;
    if (if forward then pos < next else pos <= next) {
      i := 0;
    } else {
      i := SpanHolding(children[1..], pos, forward, next);
      i := i + 1;
    }
  }

  // On any non-empty range of a document whose blocks are not empty, snapping
  // succeeds and only ever grows the range.
  lemma SnapContains(children: seq<Node>, start: nat, end: nat)
    requires NonEmptyBlocks(children) && start < end <= ContentSize(children)
    ensures var snapped := SnapSelection(children, start, end);
            snapped.Some? && snapped.value.0 <= start && end <= snapped.value.1
  {
    var spans := Spans(children, 0);
    if !InOneTextblock(children, start, end) {
      var a := SpanHolding(children, start, true, 0);
      var b := SpanHolding(children, end, false, 0);
      hide InOneTextblock, ContentSize, Spans, NodeSize;
      var i, j := BlockAt(spans, start, true).value, BlockAt(spans, end, false).value;
      SpansOrdered(children, j, i);
      SpansOrdered(children, i, j);
    }
  }

  // A rewrite's step covers the snapped range.
  lemma SnappedStep(children: seq<Node>, start: nat, end: nat, text: string)
    requires NonEmptyBlocks(children) && start < end <= ContentSize(children)
    ensures var snapped := SnapSelection(children, start, end);
            var edit := ReplaceSelection(children, start, end, text);
            && snapped.Some? && edit.Some?
            && edit.value.step.from == snapped.value.0 && edit.value.step.to == snapped.value.1
            && (!InOneTextblock(children, start, end) ==> edit.value.step.slice == Paragraphs(text))
            && (InOneTextblock(children, start, end) ==> snapped.value == (start, end))
  {
    hide ContentSize, NonEmptyBlocks, Paragraphs, TextblockAt, NodeSize;
    if InOneTextblock(children, start, end) {
      SnapInTextblock(children, start, end);
    } else {
      SnapContains(children, start, end);
      SnapTwice(children, start, end);
      BlocksReplaced(children, start, end, text);
    }
  }

  lemma BlocksReplaced(children: seq<Node>, start: nat, end: nat, text: string)
    requires !InOneTextblock(children, start, end) && SnapSelection(children, start, end).Some?
    requires var snapped := SnapSelection(children, start, end).value;
             !InOneTextblock(children, snapped.0, snapped.1) && SnapSelection(children, snapped.0, snapped.1).Some?
    ensures var snapped := SnapSelection(children, start, end).value;
            var edit := ReplaceSelection(children, start, end, text);
            && edit.Some? && edit.value.step.from == snapped.0 && edit.value.step.to == snapped.1
            && edit.value.step.slice == Paragraphs(text)
  {
    hide Paragraphs, InOneTextblock, Spans, NodeSize;
  }

  lemma {:induction false} EdgeInNoTextblock(children: seq<Node>, base: nat, k: nat)
    requires k < |children|
    ensures TextblockAt(children, Spans(children, base)[k].0, base).None?
    ensures TextblockAt(children, Spans(children, base)[k].1, base).None?
  {
    var next := base + NodeSize(children[0]);
    SpansFrom(children[1..], next);
    hide NodeSize;
    if k == 0 {
      if children[1..] != [] {
        EdgeInNoTextblock(children[1..], next, 0);
        assert Spans(children[1..], next)[0].0 == next;
      }
      TextblockBeyond(children[1..], next, next);
      TextblockBeyond(children[1..], base, next);
    } else {
      EdgeInNoTextblock(children[1..], next, k - 1);
    }
  }

  lemma {:induction false} SpansFrom(children: seq<Node>, base: nat)
    ensures forall i :: 0 <= i < |children| ==> base <= Spans(children, base)[i].0 <= Spans(children, base)[i].1
  {
    if children != [] {
      SpansFrom(children[1..], base + NodeSize(children[0]));
      hide NodeSize;
    }
  }

  lemma {:induction false} TextblockBeyond(children: seq<Node>, pos: int, base: int)
    requires pos <= base
    ensures TextblockAt(children, pos, base).None?
  {
    if children != [] {
      TextblockBeyond(children[1..], pos, base + NodeSize(children[0]));
      hide NodeSize, IsTextblock;
    }
  }

  lemma SnapTwice(children: seq<Node>, start: nat, end: nat)
    requires NonEmptyBlocks(children) && start < end <= ContentSize(children)
    requires !InOneTextblock(children, start, end)
    ensures var snapped := SnapSelection(children, start, end);
            && snapped.Some?
            && !InOneTextblock(children, snapped.value.0, snapped.value.1)
            && SnapSelection(children, snapped.value.0, snapped.value.1) == snapped
  {
    SnapContains(children, start, end);
    hide TextblockAt, Spans, NodeSize, ContentSize;
    var spans := Spans(children, 0);
    var i, j := BlockAt(spans, start, true).value, BlockAt(spans, end, false).value;
    EdgeInNoTextblock(children, 0, i);
    BlockOfEdge(children, i);
    BlockOfEdge(children, j);
  }

  // Snapping again changes nothing, and the snapped range is rewritten exactly
  // as the range it came from.
  lemma SnapIsStable(children: seq<Node>, start: nat, end: nat, text: string)
    requires NonEmptyBlocks(children) && start < end <= ContentSize(children)
    ensures var snapped := SnapSelection(children, start, end);
            && snapped.Some?
            && SnapSelection(children, snapped.value.0, snapped.value.1) == snapped
            && ReplaceSelection(children, snapped.value.0, snapped.value.1, text)
               == ReplaceSelection(children, start, end, text)
  {
    hide InOneTextblock, SnapSelection, ReplaceSelection, ContentSize, NonEmptyBlocks;
    if InOneTextblock(children, start, end) {
      SnapInTextblock(children, start, end);
    } else {
      SnapTwice(children, start, end);
      var snapped := SnapSelection(children, start, end).value;
      SameSnapSameEdit(children, start, end, snapped.0, snapped.1, text);
    }
  }

  lemma SnapInTextblock(children: seq<Node>, start: int, end: int)
    requires InOneTextblock(children, start, end)
    ensures SnapSelection(children, start, end) == Some((start, end))
  {
  }

  lemma SameSnapSameEdit(children: seq<Node>, a: int, b: int, c: int, d: int, text: string)
    requires !InOneTextblock(children, a, b) && !InOneTextblock(children, c, d)
    requires SnapSelection(children, a, b) == SnapSelection(children, c, d)
    ensures ReplaceSelection(children, a, b, text) == ReplaceSelection(children, c, d, text)
  {
    hide InOneTextblock, SnapSelection, Paragraphs, Spans;
  }

  // ----- which blocks, and which whitespace -----

  // A block edge is a position between two top-level blocks, or an end of the document.
  predicate Edge(children: seq<Node>, at: int) {
    exists k :: 0 <= k <= |children| && at == ContentSize(children[..k])
  }

  lemma SpanEdges(children: seq<Node>, i: nat)
    requires i < |children|
    ensures Edge(children, Spans(children, 0)[i].0) && Edge(children, Spans(children, 0)[i].1)
  {
    hide ContentSize, Spans;
    SpansAt(children, 0, i);
  }

  // No edge lies strictly inside a block.
  lemma NoEdgeInside(children: seq<Node>, i: nat, at: int)
    requires i < |children| && Edge(children, at)
    ensures at <= Spans(children, 0)[i].0 || Spans(children, 0)[i].1 <= at
  {
    hide ContentSize, Spans;
    SpansAt(children, 0, i);
    var k :| 0 <= k <= |children| && at == ContentSize(children[..k]);
    if k <= i {
      PrefixGrows(children, k, i);
    } else {
      PrefixGrows(children, i + 1, k);
    }
  }

  // A range that crosses blocks grows to the edges nearest to it, no further.
  lemma SnapIsLeast(children: seq<Node>, start: nat, end: nat, a: int, b: int)
    requires NonEmptyBlocks(children) && start < end <= ContentSize(children)
    requires !InOneTextblock(children, start, end)
    requires Edge(children, a) && Edge(children, b) && a <= start && end <= b
    ensures var snapped := SnapSelection(children, start, end);
            && snapped.Some?
            && Edge(children, snapped.value.0) && Edge(children, snapped.value.1)
            && a <= snapped.value.0 && snapped.value.1 <= b
  {
    SnapContains(children, start, end);
    hide ContentSize, Spans, InOneTextblock, NonEmptyBlocks, Edge;
    var spans := Spans(children, 0);
    var i, j := BlockAt(spans, start, true).value, BlockAt(spans, end, false).value;
    SpanEdges(children, i);
    SpanEdges(children, j);
    NoEdgeInside(children, i, a);
    NoEdgeInside(children, j, b);
  }

  lemma EndsAreEdges(children: seq<Node>)
    ensures Edge(children, 0) && Edge(children, ContentSize(children))
  {
    assert children[..0] == [] && children[..|children|] == children;
    assert ContentSize(children[..0]) == 0;
  }

  // The edges nearest to a range.
  ghost predicate Nearest(children: seq<Node>, start: int, end: int, low: int, high: int) {
    && Edge(children, low) && Edge(children, high) && low <= start && end <= high
    && forall a, b :: Edge(children, a) && Edge(children, b) && a <= start && end <= b ==> a <= low && high <= b
  }

  lemma SnapIsNearest(children: seq<Node>, start: nat, end: nat)
    requires NonEmptyBlocks(children) && start < end <= ContentSize(children)
    requires !InOneTextblock(children, start, end) && SnapSelection(children, start, end).Some?
    ensures var snapped := SnapSelection(children, start, end).value;
            Nearest(children, start, end, snapped.0, snapped.1)
  {
    hide Edge, SnapSelection, ContentSize, NonEmptyBlocks, InOneTextblock;
    var snapped := SnapSelection(children, start, end).value;
    SnapContains(children, start, end);
    EndsAreEdges(children);
    SnapIsLeast(children, start, end, 0, ContentSize(children));
    forall a, b | Edge(children, a) && Edge(children, b) && a <= start && end <= b
      ensures a <= snapped.0 && snapped.1 <= b
    {
      SnapIsLeast(children, start, end, a, b);
    }
  }

  // An insertion goes to the first edge at or after the position, or to the
  // end when there is no position or nothing before it.
  lemma InsertPlace(children: seq<Node>, pos: Option<nat>, text: string)
    requires NonEmptyBlocks(children)
    requires pos.Some? ==> pos.value <= ContentSize(children)
    ensures var at := InsertAfter(children, pos, text).step.from;
            && Edge(children, at)
            && if pos.Some? && pos.value > 0
               then pos.value <= at && forall e :: Edge(children, e) && pos.value <= e ==> at <= e
               else at == ContentSize(children)
  {
    var spans := Spans(children, 0);
    var at := InsertAfter(children, pos, text).step.from;
    if pos.Some? && pos.value > 0 {
      var k := SpanHolding(children, pos.value, false, 0);
      var i := BlockAt(spans, pos.value, false).value;
      SpanEdges(children, i);
      forall e | Edge(children, e) && pos.value <= e
        ensures at <= e
      {
        SpansOrdered(children, i, i);
        NoEdgeInside(children, i, e);
      }
    } else {
      InsertAtEnd(children, pos, text);
    }
  }

  lemma InsertAtEnd(children: seq<Node>, pos: Option<nat>, text: string)
    requires NonEmptyBlocks(children) && (pos.Some? ==> pos.value == 0)
    ensures InsertAfter(children, pos, text).step.from == ContentSize(children)
    ensures Edge(children, ContentSize(children))
  {
    hide ContentSize, Spans, Paragraphs;
    var n, spans := |children|, Spans(children, 0);
    assert children[..n] == children;
    if n == 0 {
      NoContent(children);
    } else {
      SpansAt(children, 0, n - 1);
      forall k | 0 <= k < n
        ensures !Holds(spans[k], 0, false)
      {
        SpansOrdered(children, k, k);
        assert NodeSize(children[k]) > 0;
      }
    }
  }

  lemma StripParts(s: string)
    requires Text.Ink(s) != []
    ensures s == Text.Lead(s) + Text.Strip(s, Text.IsSpace) + Text.Trail(s)
  {
    hide Text.IsSpace, Text.Ink, Text.LStrip, Text.RStrip;
    var n, m := |s| - |Text.LStrip(s, Text.IsSpace)|, |Text.RStrip(s, Text.IsSpace)|;
    if n >= m {
      AllSpace(s);
    } else {
      SameRStrip(s, n);
      ThreeParts(s, n, m);
    }
  }

  lemma ThreeParts(s: string, n: nat, m: nat)
    requires n <= m <= |s|
    ensures s == s[..n] + s[n..m] + s[m..]
    ensures s[n..][..m - n] == s[n..m]
  {
  }

  lemma AllSpace(s: string)
    requires |s| - |Text.LStrip(s, Text.IsSpace)| >= |Text.RStrip(s, Text.IsSpace)|
    ensures Text.Ink(s) == []
  {
    hide Text.IsSpace, Text.Ink, Text.LStrip, Text.RStrip;
    var n := |s| - |Text.LStrip(s, Text.IsSpace)|;
    assert forall i :: 0 <= i < n ==> Text.IsSpace(s[i]);
    assert forall i :: n <= i < |s| ==> Text.IsSpace(s[i]);
    Text.InkOfSpace(s);
  }

  // Stripping the right end does not look at the left one.
  lemma {:induction false} SameRStrip(s: string, n: nat)
    requires n < |Text.RStrip(s, Text.IsSpace)|
    ensures Text.RStrip(s[n..], Text.IsSpace) == s[n..|Text.RStrip(s, Text.IsSpace)|]
    decreases |s|
  {
    hide Text.IsSpace;
    if Text.IsSpace(s[|s| - 1]) {
      SameRStrip(s[..|s| - 1], n);
      assert s[n..][..|s[n..]| - 1] == s[..|s| - 1][n..];
    } else {
      assert s[n..][|s[n..]| - 1] == s[|s| - 1];
    }
  }

  // A rewrite keeps the selected whitespace and takes the model's words: given
  // the selected words back, it gives back the selection.
  lemma RewordedKeepsSpace(original: string, text: string)
    requires Text.Ink(original) != []
    ensures var words := Text.Strip(text, Text.IsSpace);
            && original == Text.Lead(original) + Text.Strip(original, Text.IsSpace) + Text.Trail(original)
            && Reworded(original, text, true) == Text.Lead(original) + words + Text.Trail(original)
            && Reworded(original, text, false)
               == Text.Lead(original) + Text.Collapse(words) + Text.Trail(original)
            && (words == Text.Strip(original, Text.IsSpace) ==> Reworded(original, text, true) == original)
  {
    StripParts(original);
    hide Text.Collapse, Text.Strip, Text.Lead, Text.Trail;
  }

  // What is not whitespace in the result is what is not whitespace in the answer.
  lemma RewordedInk(original: string, text: string, code: bool)
    ensures Text.Ink(Reworded(original, text, code)) == Text.Ink(text)
  {
    var words := Text.Strip(text, Text.IsSpace);
    var body := if code then words else Text.Collapse(words);
    Text.InkStrip(text, Text.IsSpace);
    Text.CollapseLeavesNoBlankLine(words);
    LeadIsSpace(original);
    hide Text.Ink, Text.Collapse, Text.Strip, Text.Lead, Text.Trail, Text.IsSpace;
    Text.InkOfSpace(Text.Lead(original));
    Text.InkOfSpace(Text.Trail(original));
    Text.InkConcat(Text.Lead(original) + body, Text.Trail(original));
    Text.InkConcat(Text.Lead(original), body);
  }

  // A rewrite's slice reads as the answer between the whitespace selected around
  // it, less the answer's blank lines; in code the answer is as it is, and one
  // run of text.
  lemma RewriteReads(children: seq<Node>, start: int, end: int, text: string)
    requires InOneTextblock(children, start, end)
    ensures var found := TextblockAt(children, start, 0).value;
            && ValidPath(children, found.path)
            && var code := Get(children, found.path).Elem? && Get(children, found.path).kind.CodeBlock?;
               var slice := ReplaceInTextblock(children, start, end, text).value.step.slice;
               var selected, words := Selected(children, start, end), Text.Strip(text, Text.IsSpace);
               && InlineText(slice)
                  == Text.Lead(selected) + (if code then words else Text.Undropped(words, 0)) + Text.Trail(selected)
               && (!code ==> LinesAndBreaks(slice))
               && (code ==> |slice| <= 1 && forall n :: n in slice ==> n.Text? && n.marks == [])
  {
    FoundIsThere(children, start, 0);
    hide Text.Collapse, Text.Strip, Text.Lead, Text.Trail, Text.Undropped, Get, InlineNodes, InlineText, Merged, Put,
      TextblockAt, LinesAndBreaks, Slice;
    var block := Get(children, TextblockAt(children, start, 0).value.path);
    Text.CollapseKeepsExactly(Text.Strip(text, Text.IsSpace));
    InlineNodesLaws(Reworded(Selected(children, start, end), text, block.kind.CodeBlock?), block.kind.CodeBlock?);
  }

  lemma LeadIsSpace(s: string)
    ensures forall i :: 0 <= i < |Text.Lead(s)| ==> Text.IsSpace(Text.Lead(s)[i])
    ensures forall i :: 0 <= i < |Text.Trail(s)| ==> Text.IsSpace(Text.Trail(s)[i])
  {
    hide Text.IsSpace;
  }
}
