// What the server's edits promise: the stored document is the one a peer gets
// by replaying the step.
module EditLaws {
  import opened Wrappers
  import opened Utf16
  import opened Tree
  import opened Inline
  import opened Edits
  import Text
  import Seqs

  // ----- nodes made from text -----

  lemma {:induction false} InlineTextConcat(a: seq<Node>, b: seq<Node>)
    ensures InlineText(a + b) == InlineText(a) + InlineText(b)
  {
    if a == [] {
      assert a + b == b;
    } else {
      InlineTextConcat(a[1..], b);
      Seqs.TailOfConcat(a, b);
      Seqs.Assoc(if a[0].Text? then a[0].text else "\n", InlineText(a[1..]), InlineText(b));
    }
  }

  // A leaf reads as a line break.
  lemma OneReads(node: Node)
    ensures InlineText([node]) == if node.Text? then node.text else "\n"
  {
    assert [node][1..] == [];
  }

  function Unlines(lines: seq<string>): string
    requires lines != []
  {
    if |lines| == 1 then lines[0] else lines[0] + "\n" + Unlines(lines[1..])
  }

  lemma {:induction false} LinesText(current: string, s: string)
    ensures Unlines(Text.Lines(current, s)) == current + s
    decreases |s|
  {
    if s != [] && s[0] == '\n' {
      LinesText([], s[1..]);
      assert Text.Lines(current, s)[1..] == Text.Lines([], s[1..]);
      assert current + "\n" + s[1..] == current + s;
    } else if s != [] {
      LinesText(current + [s[0]], s[1..]);
      assert current + [s[0]] + s[1..] == current + s;
    }
  }

  function Prefix(line: string, first: bool): seq<Node> {
    (if first then [] else [LINE_BREAK]) + (if line == [] then [] else [TextNode(line)])
  }

  lemma PrefixText(line: string, first: bool)
    ensures InlineText(Prefix(line, first)) == (if first then "" else "\n") + line
    ensures Normal(Prefix(line, first))
    ensures Prefix(line, first) != [] && !first ==> Prefix(line, first)[0].Elem?
  {
    var a := if first then [] else [LINE_BREAK];
    var b := if line == [] then [] else [TextNode(line)];
    NormalSingle(LINE_BREAK);
    if line != [] {
      NormalSingle(TextNode(line));
      assert [TextNode(line)][1..] == [];
    }
    assert [LINE_BREAK][1..] == [];
    NormalConcat(a, b);
    InlineTextConcat(a, b);
  }

  // Unmarked text within its line, and hard breaks.
  predicate LinesAndBreaks(nodes: seq<Node>) {
    forall i :: 0 <= i < |nodes| ==>
      nodes[i] == LINE_BREAK || (nodes[i].Text? && nodes[i].marks == [] && '\n' !in nodes[i].text)
  }

  lemma {:induction false} LineNodesLaws(lines: seq<string>, first: bool)
    requires lines != []
    ensures InlineText(LineNodes(lines, first)) == (if first then "" else "\n") + Unlines(lines)
    ensures Normal(LineNodes(lines, first))
    ensures !first ==> LineNodes(lines, first) != [] && LineNodes(lines, first)[0].Elem?
    ensures (forall i :: 0 <= i < |lines| ==> '\n' !in lines[i]) ==> LinesAndBreaks(LineNodes(lines, first))
    decreases |lines|
  {
    var head, rest := Prefix(lines[0], first), LineNodes(lines[1..], false);
    PrefixText(lines[0], first);
    assert LineNodes(lines, first) == head + rest;
    if |lines| > 1 {
      LineNodesLaws(lines[1..], false);
    }
    hide LineNodes, Prefix, Normal;
    InlineTextConcat(head, rest);
    NormalRest(lines, first);
    NormalConcat(head, rest);
    if |lines| > 1 {
      Seqs.Assoc(if first then "" else "\n", lines[0], "\n" + Unlines(lines[1..]));
      Seqs.Assoc(lines[0], "\n", Unlines(lines[1..]));
    }
  }

  lemma NormalRest(lines: seq<string>, first: bool)
    requires lines != []
    requires |lines| > 1 ==> Normal(LineNodes(lines[1..], false))
    ensures Normal(LineNodes(lines[1..], false))
  {
  }

  // Every line break of the text becomes a hard break and every other character
  // a character, or every character one in code, and the nodes are in normal
  // form.
  lemma InlineNodesLaws(text: string, code: bool)
    ensures InlineText(InlineNodes(text, code)) == text
    ensures Normal(InlineNodes(text, code))
    ensures !code ==> LinesAndBreaks(InlineNodes(text, code))
    ensures code ==> |InlineNodes(text, code)| <= 1
                     && forall n :: n in InlineNodes(text, code) ==> n.Text? && n.marks == []
  {
    if code {
      if text != [] {
        NormalSingle(TextNode(text));
        assert [TextNode(text)][1..] == [];
      }
    } else {
      LinesText([], text);
      LineNodesLaws(Text.Lines([], text), true);
    }
  }

  function TextOf(blocks: seq<Node>): string {
    if blocks == [] then [] else InlineText(Children(blocks[0])) + TextOf(blocks[1..])
  }

  predicate NotBlank(node: Node) {
    node.Elem? && node.kind == Paragraph && Text.Ink(InlineText(node.content)) != []
  }

  lemma {:induction false} ParagraphsOfNormal(blocks: seq<string>)
    ensures Normal(ParagraphsOf(blocks))
    ensures forall i :: 0 <= i < |ParagraphsOf(blocks)| ==> NotBlank(ParagraphsOf(blocks)[i])
  {
    if blocks != [] {
      ParagraphsOfNormal(blocks[1..]);
      if Text.Strip(blocks[0], Text.IsSpace) == [] {
        ParagraphsSkip(blocks);
      } else {
        var block, rest := ParagraphOf(blocks[0]), ParagraphsOf(blocks[1..]);
        ParagraphsTake(blocks);
        ParagraphOfLaws(blocks[0]);
        hide ParagraphsOf, ParagraphOf, NotBlank;
        NormalSingle(block);
        NormalConcat([block], rest);
      }
    }
  }

  lemma {:induction false} ParagraphsOfInk(blocks: seq<string>)
    ensures Text.Ink(TextOf(ParagraphsOf(blocks))) == Text.InkOfAll(blocks)
  {
    if blocks != [] {
      ParagraphsOfInk(blocks[1..]);
      if Text.Strip(blocks[0], Text.IsSpace) == [] {
        ParagraphsSkip(blocks);
        Text.InkStrip(blocks[0], Text.IsSpace);
      } else {
        var block, rest := ParagraphOf(blocks[0]), ParagraphsOf(blocks[1..]);
        ParagraphsTake(blocks);
        ParagraphOfLaws(blocks[0]);
        hide ParagraphsOf, ParagraphOf;
        assert ([block] + rest)[1..] == rest;
        Text.InkConcat(InlineText(block.content), TextOf(rest));
      }
    }
  }

  function ParagraphOf(block: string): Node {
    Elem(Paragraph, map[], [], InlineNodes(Text.Strip(block, Text.Newline), false))
  }

  lemma ParagraphOfLaws(block: string)
    requires Text.Strip(block, Text.IsSpace) != []
    ensures NormalNode(ParagraphOf(block)) && NotBlank(ParagraphOf(block))
    ensures Text.Ink(InlineText(ParagraphOf(block).content)) == Text.Ink(block)
  {
    hide Text.Strip, InlineNodes, Text.Ink, Normal, InlineText;
    InlineNodesLaws(Text.Strip(block, Text.Newline), false);
    Text.InkStrip(block, Text.Newline);
    Text.InkStrip(block, Text.IsSpace);
    Text.StripHasInk(block);
  }

  lemma ParagraphsSkip(blocks: seq<string>)
    requires blocks != [] && Text.Strip(blocks[0], Text.IsSpace) == []
    ensures ParagraphsOf(blocks) == ParagraphsOf(blocks[1..])
  {
    hide Text.Strip, InlineNodes;
  }

  lemma ParagraphsTake(blocks: seq<string>)
    requires blocks != [] && Text.Strip(blocks[0], Text.IsSpace) != []
    ensures ParagraphsOf(blocks) == [ParagraphOf(blocks[0])] + ParagraphsOf(blocks[1..])
  {
    hide Text.Strip, InlineNodes;
  }

  // The answer as paragraphs: normal, none of them blank, and only whitespace
  // of the answer is gone.
  lemma ParagraphsLaws(text: string)
    ensures Normal(Paragraphs(text))
    ensures forall i :: 0 <= i < |Paragraphs(text)| ==> NotBlank(Paragraphs(text)[i])
    ensures Text.Ink(TextOf(Paragraphs(text))) == Text.Ink(text)
  {
    var plain := Text.Without(text, '\r');
    Text.InkWithout(text, '\r');
    Text.InkStrip(plain, Text.Newline);
    Text.InkBlocks([], Text.Strip(plain, Text.Newline));
    ParagraphsOfNormal(Text.Blocks([], Text.Strip(plain, Text.Newline)));
    ParagraphsOfInk(Text.Blocks([], Text.Strip(plain, Text.Newline)));
  }

  // A paragraph for each block that is not blank, in order, holding the block
  // without the newlines at its ends.
  predicate ReadAs(nodes: seq<Node>, blocks: seq<string>)
    decreases |blocks|
  {
    if blocks == [] then nodes == []
    else if Text.Ink(blocks[0]) == [] then ReadAs(nodes, blocks[1..])
    else
      && nodes != [] && nodes[0].Elem? && nodes[0].kind == Paragraph && nodes[0].attrs == map[] && nodes[0].marks == []
      && InlineText(nodes[0].content) == Text.Strip(blocks[0], Text.Newline) && LinesAndBreaks(nodes[0].content)
      && ReadAs(nodes[1..], blocks[1..])
  }

  lemma {:induction false} ParagraphsRead(blocks: seq<string>)
    ensures ReadAs(ParagraphsOf(blocks), blocks)
    decreases |blocks|
  {
    if blocks != [] {
      hide InlineNodes, ParagraphsOf, Text.Ink, Text.Strip, LinesAndBreaks, Text.IsSpace;
      ParagraphsRead(blocks[1..]);
      Text.InkStrip(blocks[0], Text.IsSpace);
      NoInk();
      if Text.Strip(blocks[0], Text.IsSpace) == [] {
        ParagraphsSkip(blocks);
      } else {
        ParagraphsTake(blocks);
        Text.StripHasInk(blocks[0]);
        InlineNodesLaws(Text.Strip(blocks[0], Text.Newline), false);
        assert ([ParagraphOf(blocks[0])] + ParagraphsOf(blocks[1..]))[1..] == ParagraphsOf(blocks[1..]);
      }
    } else {
      NoParagraphs();
    }
  }

  lemma NoInk()
    ensures Text.Ink([]) == []
  {
  }

  lemma NoParagraphs()
    ensures ParagraphsOf([]) == []
  {
  }

  // The answer, without carriage returns and the newlines at its ends, splits
  // at its blank lines from the first on, and the blocks are the paragraphs.
  lemma ParagraphsExactly(text: string)
    ensures exists blocks: seq<string>, gaps: seq<string> ::
              && Text.SplitsAs(Text.Strip(Text.Without(text, '\r'), Text.Newline), blocks, gaps)
              && ReadAs(Paragraphs(text), blocks)
  {
    hide Text.SplitsAs, ReadAs, Text.Strip;
    var s := Text.Strip(Text.Without(text, '\r'), Text.Newline);
    Text.BlocksExactly(s);
    ParagraphsRead(Text.Blocks([], s));
  }

  // ----- path surgery on tokens -----

  // The tokens before and after the node at `path`.
  function Before(children: seq<Node>, path: seq<nat>): (tokens: seq<Token>)
    requires ValidPath(children, path)
    ensures |tokens| == OffsetOf(children, path)
    decreases |path|
  {
    var node := children[path[0]];
    Tokens(children[..path[0]])
    + if |path| == 1 then []
      else [Open(node.kind, node.attrs, node.marks)] + Before(node.content, path[1..])
  }

  function After(children: seq<Node>, path: seq<nat>): seq<Token>
    requires ValidPath(children, path)
    decreases |path|
  {
    (if |path| == 1 then [] else After(children[path[0]].content, path[1..]) + [Close])
    + Tokens(children[path[0] + 1..])
  }

  lemma TokensAround(children: seq<Node>, i: nat, node: Node)
    requires i < |children|
    ensures Tokens(children[i := node])
            == Tokens(children[..i]) + (NodeTokens(node) + Tokens(children[i + 1..]))
  {
    hide NodeTokens, NodeSize, ContentSize;
    var tail := [node] + children[i + 1..];
    assert children[i := node] == children[..i] + tail;
    TokensConcat(children[..i], tail);
    TokensCons(tail);
    assert tail[1..] == children[i + 1..];
  }

  lemma NestedTokens(a: seq<Token>, opening: Token, b: seq<Token>, n: seq<Token>, c: seq<Token>, d: seq<Token>)
    ensures a + (([opening] + (b + n + c) + [Close]) + d)
            == (a + ([opening] + b)) + n + ((c + [Close]) + d)
  {
    calc {
      a + (([opening] + (b + n + c) + [Close]) + d);
      a + ([opening] + ((b + n + c) + ([Close] + d)));
      a + ([opening] + (b + (n + (c + ([Close] + d)))));
      (a + ([opening] + b)) + (n + (c + ([Close] + d)));
      (a + ([opening] + b)) + n + ((c + [Close]) + d);
    }
  }

  // Putting a node at a path changes those tokens only.
  lemma {:induction false} PutTokens(children: seq<Node>, path: seq<nat>, node: Node)
    requires ValidPath(children, path)
    ensures Tokens(Put(children, path, node))
            == Before(children, path) + NodeTokens(node) + After(children, path)
    decreases |path|
  {
    hide NodeTokens, NodeSize, ContentSize, Tokens;
    var i := path[0];
    if |path| == 1 {
      TokensAround(children, i, node);
      Seqs.Assoc(Before(children, path), NodeTokens(node), After(children, path));
    } else {
      var child := children[i];
      var inner := child.(content := Put(child.content, path[1..], node));
      PutTokens(child.content, path[1..], node);
      TokensAround(children, i, inner);
      ElemNodeTokens(inner);
      NestedTokens(Tokens(children[..i]), Open(child.kind, child.attrs, child.marks),
                   Before(child.content, path[1..]), NodeTokens(node), After(child.content, path[1..]),
                   Tokens(children[i + 1..]));
    }
  }

  lemma ElemNodeTokens(node: Node)
    requires node.Elem? && !IsLeafKind(node.kind)
    ensures NodeTokens(node) == [Open(node.kind, node.attrs, node.marks)] + Tokens(node.content) + [Close]
  {
  }

  lemma {:induction false} PutBack(children: seq<Node>, path: seq<nat>)
    requires ValidPath(children, path)
    ensures Put(children, path, Get(children, path)) == children
    decreases |path|
  {
    if |path| > 1 {
      PutBack(children[path[0]].content, path[1..]);
    }
  }

  // Whole tokens of the document around a textblock's content.
  lemma ContentAt(children: seq<Node>, path: seq<nat>, content: seq<Node>)
    requires ValidPath(children, path)
    requires Get(children, path).Elem? && !IsLeafKind(Get(children, path).kind)
    ensures var block := Get(children, path);
            var opening := Before(children, path) + [Open(block.kind, block.attrs, block.marks)];
            var closing := [Close] + After(children, path);
            && Tokens(children) == opening + Tokens(block.content) + closing
            && Tokens(Put(children, path, block.(content := content))) == opening + Tokens(content) + closing
            && |opening| == OffsetOf(children, path) + 1
  {
    var block := Get(children, path);
    PutBack(children, path);
    ContentAfterPut(children, path, block);
    ContentAfterPut(children, path, block.(content := content));
  }

  lemma ContentAfterPut(children: seq<Node>, path: seq<nat>, block: Node)
    requires ValidPath(children, path)
    requires block.Elem? && !IsLeafKind(block.kind)
    ensures Tokens(Put(children, path, block))
            == (Before(children, path) + [Open(block.kind, block.attrs, block.marks)])
               + Tokens(block.content) + ([Close] + After(children, path))
  {
    PutTokens(children, path, block);
    ElemNodeTokens(block);
    hide Tokens, NodeTokens, Before, After, Put, ValidPath, OffsetOf;
    Seqs.Regroup(Before(children, path), [Open(block.kind, block.attrs, block.marks)],
                 Tokens(block.content), [Close], After(children, path));
  }

  // ----- a rewrite inside one textblock -----

  function Spliced(tokens: seq<Token>, from: int, inserted: seq<Token>, to: int): seq<Token>
    requires 0 <= from <= |tokens| && 0 <= to <= |tokens|
  {
    tokens[..from] + inserted + tokens[to..]
  }

  lemma {:induction false} InlineEndsWhole(nodes: seq<Node>)
    requires InlineOnly(nodes)
    ensures !SplitsPair(Tokens(nodes), |Tokens(nodes)|)
  {
    if nodes != [] {
      InlineEndsWhole(nodes[1..]);
      NodeEndsWhole(nodes[0]);
      TokensCons(nodes);
      hide NodeTokens, Tokens, NodeSize, ContentSize;
      if Tokens(nodes[1..]) == [] {
        assert Tokens(nodes) == NodeTokens(nodes[0]);
      }
    }
  }

  lemma KeptTokens(c: seq<Node>, low: int, high: int)
    requires InlineOnly(c)
    requires 0 <= low <= |Tokens(c)| && 0 <= high <= |Tokens(c)|
    ensures 0 <= Cut(Tokens(c), low) <= |Tokens(c)| && 0 <= Cut(Tokens(c), high) <= |Tokens(c)|
    ensures Tokens(Slice(c, 0, Some(low))) == Tokens(c)[..Cut(Tokens(c), low)]
    ensures Tokens(Slice(c, high, None)) == Tokens(c)[Cut(Tokens(c), high)..]
  {
    CutEnds(Tokens(c), low);
    CutEnds(Tokens(c), high);
    hide Tokens, NodeSize, ContentSize, Slice, Cut, InlineOnly;
    SliceTokens(c, 0, low);
    SliceToEnd(c, high, |Tokens(c)|);
    SliceTokens(c, high, |Tokens(c)|);
  }

  lemma JoinedTokens(a: seq<Node>, b: seq<Node>, c: seq<Node>)
    ensures Tokens(Normalized([], a + b + c)) == Tokens(a) + Tokens(b) + Tokens(c)
  {
    assert Tokens([]) == [];
    hide Tokens, NodeSize, ContentSize, Normalized;
    NormalizedTokens([], a + b + c);
    TokensConcat(a + b, c);
    TokensConcat(a, b);
  }

  // The merged children hold the old ones up to the first cut, the new words,
  // and the old ones from the second cut.
  lemma MergedTokens(block: Node, low: int, high: int, inserted: seq<Node>)
    requires block.Elem? && InlineOnly(block.content)
    requires 0 <= low <= |Tokens(block.content)| && 0 <= high <= |Tokens(block.content)|
    ensures var tokens := Tokens(block.content);
            && 0 <= Cut(tokens, low) <= |tokens| && 0 <= Cut(tokens, high) <= |tokens|
            && Tokens(Merged(block, low, high, inserted))
               == Spliced(tokens, Cut(tokens, low), Tokens(inserted), Cut(tokens, high))
  {
    hide Tokens, NodeSize, ContentSize, Slice, Normalized, Cut, InlineOnly;
    KeptTokens(block.content, low, high);
    JoinedTokens(Slice(block.content, 0, Some(low)), inserted, Slice(block.content, high, None));
  }

  lemma CutEnds(tokens: seq<Token>, at: int)
    ensures Cut(tokens, 0) == 0 && Cut(tokens, |tokens|) == |tokens|
    ensures 0 <= Cut(tokens, at) <= |tokens|
  {
  }

  lemma CutInside(opening: seq<Token>, tokens: seq<Token>, closing: seq<Token>, at: int)
    requires opening != [] && !opening[|opening| - 1].Unit? && closing != []
    requires !SplitsPair(tokens, |tokens|)
    requires 0 <= at <= |tokens|
    ensures Cut(opening + tokens + closing, |opening| + at) == |opening| + Cut(tokens, at)
    ensures SplitsPair(opening + tokens + closing, |opening| + at) == SplitsPair(tokens, at)
  {
    var all := opening + tokens + closing;
    assert at > 0 ==> all[|opening| + at - 1] == tokens[at - 1];
    assert at == 0 ==> all[|opening| + at - 1] == opening[|opening| - 1];
  }

  lemma SplicedInside(opening: seq<Token>, tokens: seq<Token>, closing: seq<Token>,
                      from: int, inserted: seq<Token>, to: int)
    requires 0 <= from <= |tokens| && 0 <= to <= |tokens|
    ensures opening + Spliced(tokens, from, inserted, to) + closing
            == Spliced(opening + tokens + closing, |opening| + from, inserted, |opening| + to)
  {
    var all := opening + tokens + closing;
    assert all[..|opening| + from] == opening + tokens[..from];
    assert all[|opening| + to..] == tokens[to..] + closing;
    calc {
      opening + (tokens[..from] + inserted + tokens[to..]) + closing;
      opening + (tokens[..from] + (inserted + (tokens[to..] + closing)));
      (opening + tokens[..from]) + inserted + (tokens[to..] + closing);
    }
  }

  lemma SplicedWithin(opening: seq<Token>, tokens: seq<Token>, closing: seq<Token>,
                      low: int, inserted: seq<Token>, high: int)
    requires opening != [] && !opening[|opening| - 1].Unit? && closing != []
    requires !SplitsPair(tokens, |tokens|)
    requires 0 <= low <= |tokens| && 0 <= high <= |tokens|
    ensures var all, at := opening + tokens + closing, |opening|;
            && 0 <= Cut(tokens, low) <= |tokens| && 0 <= Cut(tokens, high) <= |tokens|
            && 0 <= Cut(all, at + low) <= |all| && 0 <= Cut(all, at + high) <= |all|
            && opening + Spliced(tokens, Cut(tokens, low), inserted, Cut(tokens, high)) + closing
               == Spliced(all, Cut(all, at + low), inserted, Cut(all, at + high))
  {
    CutEnds(tokens, low);
    CutEnds(tokens, high);
    CutInside(opening, tokens, closing, low);
    CutInside(opening, tokens, closing, high);
    hide Cut, Spliced, SplitsPair;
    SplicedInside(opening, tokens, closing, Cut(tokens, low), inserted, Cut(tokens, high));
  }

  // Textblocks hold only text and leaves, at every level: what the editor's
  // schema allows.
  predicate Shaped(nodes: seq<Node>)
    decreases nodes, 0
  {
    nodes == [] || (ShapedNode(nodes[0]) && Shaped(nodes[1..]))
  }

  predicate ShapedNode(node: Node)
    decreases node, 0
  {
    node.Elem? ==> (IsTextblock(node) ==> InlineOnly(node.content)) && Shaped(node.content)
  }

  lemma {:induction false} ShapedIndex(nodes: seq<Node>, i: nat)
    requires Shaped(nodes) && i < |nodes|
    ensures ShapedNode(nodes[i])
  {
    if i > 0 {
      ShapedIndex(nodes[1..], i - 1);
    }
  }

  lemma {:induction false} ShapedGet(children: seq<Node>, path: seq<nat>)
    requires Shaped(children) && ValidPath(children, path)
    ensures ShapedNode(Get(children, path))
    decreases |path|
  {
    ShapedIndex(children, path[0]);
    if |path| > 1 {
      ShapedGet(children[path[0]].content, path[1..]);
    }
  }

  lemma RewriteAt(children: seq<Node>, path: seq<nat>, low: int, high: int, inserted: seq<Node>)
    requires ValidPath(children, path)
    requires var block := Get(children, path);
             && block.Elem? && !IsLeafKind(block.kind) && InlineOnly(block.content)
             && 0 <= low <= |Tokens(block.content)| && 0 <= high <= |Tokens(block.content)|
    ensures var block, tokens, at := Get(children, path), Tokens(children), OffsetOf(children, path) + 1;
            && 0 < at + low < |tokens| && 0 < at + high < |tokens|
            && 0 <= Cut(tokens, at + low) <= |tokens| && 0 <= Cut(tokens, at + high) <= |tokens|
            && Tokens(Put(children, path, block.(content := Merged(block, low, high, inserted))))
               == Spliced(tokens, Cut(tokens, at + low), Tokens(inserted), Cut(tokens, at + high))
  {
    hide Tokens, NodeTokens, Before, After, Put, Get, ValidPath, OffsetOf, Cut, Spliced, Merged, ContentSize, InlineOnly;
    var block := Get(children, path);
    ContentAt(children, path, Merged(block, low, high, inserted));
    InlineEndsWhole(block.content);
    MergedTokens(block, low, high, inserted);
    SplicedWithin(Before(children, path) + [Open(block.kind, block.attrs, block.marks)], Tokens(block.content),
                  [Close] + After(children, path), low, Tokens(inserted), high);
  }

  // For any range in one textblock: the new document is the old tokens with
  // those between the two cuts replaced by the step's slice.
  lemma RewriteTokens(children: seq<Node>, start: int, end: int, text: string)
    requires Shaped(children) && InOneTextblock(children, start, end)
    ensures var edit, tokens := ReplaceInTextblock(children, start, end, text).value, Tokens(children);
            && edit.step.from == start && edit.step.to == end
            && 0 < start < |tokens| && 0 < end < |tokens|
            && 0 <= Cut(tokens, start) <= |tokens| && 0 <= Cut(tokens, end) <= |tokens|
            && Tokens(edit.content)
               == Spliced(tokens, Cut(tokens, start), Tokens(edit.step.slice), Cut(tokens, end))
  {
    hide Cut, Spliced, Inserted, Merged, TextblockAt, ContentSize, Put, OffsetOf, Get, ValidPath, Tokens;
    var found := TextblockAt(children, start, 0).value;
    FoundIsThere(children, start, 0);
    FoundIsThere(children, end, 0);
    var block := Get(children, found.path);
    ShapedGet(children, found.path);
    var low, high := start - found.start - 1, end - found.start - 1;
    BlockSize(block);
    RewriteAt(children, found.path, low, high, Inserted(block, low, high, text));
  }

  lemma BlockSize(block: Node)
    requires block.Elem? && !IsLeafKind(block.kind)
    ensures NodeSize(block) == |Tokens(block.content)| + 2
  {
  }

  lemma {:induction false} NormalGet(children: seq<Node>, path: seq<nat>)
    requires Normal(children) && ValidPath(children, path)
    ensures NormalNode(Get(children, path))
    decreases |path|
  {
    NormalAt(children, path[0]);
    if |path| > 1 {
      NormalGet(children[path[0]].content, path[1..]);
    }
  }
}
